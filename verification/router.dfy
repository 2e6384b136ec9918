/**
 * The page-load action router: the query parameters of the address select at
 * most one gated overlay, which opens only if the session gate is open at that
 * moment; opening one consumes the session.
 */
module Router {
  import opened Wrappers
  import opened Session

  /** The overlay the router opens, with the target id as the query gave it. */
  datatype Action =
    | AddProject
    | EditProject(id: string)
    | DeleteProject(id: string)
    | AddExperience
    | EditExperience(id: string)
    | DeleteExperience(id: string)
    | NoAction

  /**
   * The query parameters, by name, each with the first value given for it
   * (what URLSearchParams `has` and `get` see).
   */
  type Params = map<string, string>

  /**
   * The action the query asks for, ignoring the session: the first of add,
   * edit, delete project, then add, edit, delete experience, whose parameters
   * are present; edit and delete also need `id`.
   */
  function Requested(params: Params): (a: Action)
    ensures a.AddProject? <==> "openAddModal" in params
    ensures a.EditProject? <==>
      && "openAddModal" !in params
      && "openEditModal" in params && "id" in params
    ensures a.DeleteProject? <==>
      && "openAddModal" !in params
      && !("openEditModal" in params && "id" in params)
      && "openDeleteModal" in params && "id" in params
    ensures a.AddExperience? <==>
      && "openAddModal" !in params
      && !(("openEditModal" in params || "openDeleteModal" in params) && "id" in params)
      && "openAddExpModal" in params
    ensures a.EditExperience? <==>
      && "openAddModal" !in params && "openAddExpModal" !in params
      && !(("openEditModal" in params || "openDeleteModal" in params) && "id" in params)
      && "openEditExpModal" in params && "id" in params
    ensures a.DeleteExperience? <==>
      && "openAddModal" !in params && "openAddExpModal" !in params
      && !(("openEditModal" in params || "openDeleteModal" in params || "openEditExpModal" in params) && "id" in params)
      && "openDeleteExpModal" in params && "id" in params
    ensures a.EditProject? || a.DeleteProject? || a.EditExperience? || a.DeleteExperience? ==>
      "id" in params && a.id == params["id"]
    ensures a == NoAction <==>
      && "openAddModal" !in params && "openAddExpModal" !in params
      && ("id" !in params ||
          ("openEditModal" !in params && "openDeleteModal" !in params &&
           "openEditExpModal" !in params && "openDeleteExpModal" !in params))
  {
    if "openAddModal" in params then AddProject
    else if "openEditModal" in params && "id" in params then EditProject(params["id"])
    else if "openDeleteModal" in params && "id" in params then DeleteProject(params["id"])
    else if "openAddExpModal" in params then AddExperience
    else if "openEditExpModal" in params && "id" in params then EditExperience(params["id"])
    else if "openDeleteExpModal" in params && "id" in params then DeleteExperience(params["id"])
    else NoAction
  }

  /** A project action in the query takes precedence over any experience action. */
  lemma ProjectActionsFirst(params: Params)
    requires "openAddModal" in params || ("id" in params && ("openEditModal" in params || "openDeleteModal" in params))
    ensures Requested(params).AddProject? || Requested(params).EditProject? || Requested(params).DeleteProject?
  {
  }

  /**
   * `handleURLParameters` with `clearSessionAndURL`. Each branch asks the gate
   * only once its parameters are present, so an expired session is removed
   * only when some action was asked for, and a branch whose check fails lets
   * later branches ask again. The net effect: the requested action is
   * dispatched exactly when the gate is open, and dispatching removes the
   * session.
   */
  method HandleUrlParameters(gate: SessionStore, params: Params, now: int) returns (a: Action)
    modifies gate
    ensures a == if Authenticated(old(gate.adminSession), now) then Requested(params) else NoAction
    ensures Requested(params) == NoAction ==> gate.adminSession == old(gate.adminSession)
    ensures Requested(params) != NoAction && a != NoAction ==> gate.adminSession == None
    ensures Requested(params) != NoAction && a == NoAction ==> gate.adminSession == AfterCheck(old(gate.adminSession), now)
  {
    CheckIsStable(gate.adminSession, now);
    var ok := false;
    if "openAddModal" in params {
      ok := gate.CheckAuthentication(now);
    }
    if ok {
      a := AddProject;
      gate.ClearSession();
      return;
    }
    if "openEditModal" in params && "id" in params {
      ok := gate.CheckAuthentication(now);
    }
    if ok {
      a := EditProject(params["id"]);
      gate.ClearSession();
      return;
    }
    if "openDeleteModal" in params && "id" in params {
      ok := gate.CheckAuthentication(now);
    }
    if ok {
      a := DeleteProject(params["id"]);
      gate.ClearSession();
      return;
    }
    if "openAddExpModal" in params {
      ok := gate.CheckAuthentication(now);
    }
    if ok {
      a := AddExperience;
      gate.ClearSession();
      return;
    }
    if "openEditExpModal" in params && "id" in params {
      ok := gate.CheckAuthentication(now);
    }
    if ok {
      a := EditExperience(params["id"]);
      gate.ClearSession();
      return;
    }
    if "openDeleteExpModal" in params && "id" in params {
      ok := gate.CheckAuthentication(now);
    }
    if ok {
      a := DeleteExperience(params["id"]);
      gate.ClearSession();
      return;
    }
    a := NoAction;
  }
}
