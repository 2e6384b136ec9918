/**
 * Whole flows through the repository, as a page performs them: an id travels
 * as decimal text (in the address or an inline handler) and is read back with
 * parseInt before the collection is searched or filtered.
 */
module Scenarios {
  import opened Wrappers
  import opened Entities
  import opened JsNumber
  import opened Collection
  import opened Store

  /** The record just added is what a lookup by the text of its id finds, when its id is new. */
  lemma FindAddedByText<F>(s: seq<Entity<F>>, f: F, now: int)
    requires !Contains(s, Some(now))
    ensures FindFirst(s + [Entity(now, f)], ParseInt(DecimalText(now))) == Some(Entity(now, f))
  {
    ParseIntDecimalText("", now, "");
    assert "" + DecimalText(now) + "" == DecimalText(now);
    FindAfterAppend(s, Entity(now, f), Some(now));
  }

  /** Deleting by the text of the id of a record just added, when its id was new, restores the collection. */
  lemma DeleteAddedByText<F>(s: seq<Entity<F>>, f: F, now: int)
    requires !Contains(s, Some(now))
    ensures RemoveId(s + [Entity(now, f)], ParseInt(DecimalText(now))) == s
  {
    ParseIntDecimalText("", now, "");
    assert "" + DecimalText(now) + "" == DecimalText(now);
    RemoveAppended(s, Entity(now, f));
  }

  /** What is saved is what is read back. */
  method SaveThenGet(store: LocalStore, ps: seq<Project>, es: seq<Experience>)
    returns (readProjects: seq<Project>, readExperiences: seq<Experience>)
    modifies store
    ensures readProjects == ps && readExperiences == es
    ensures store.projects == Some(ps) && store.experiences == Some(es)
  {
    store.SaveProjects(ps);
    store.SaveExperiences(es);
    readProjects := store.GetProjects();
    readExperiences := store.GetExperiences();
  }

  /**
   * With no experience stored, adding one gives exactly that record, and
   * deleting it by the text of its id empties the collection again.
   */
  method AddThenDeleteExperience(store: LocalStore, now: int)
    requires store.experiences == Some([])
    modifies store
    ensures store.experiences == Some([]) && store.projects == old(store.projects)
  {
    store.AddExperience("Acme", "Analyst", "2024", "desc", now);
    var es := store.GetExperiences();
    assert es == [Entity(now, ExperienceFields("Acme", "Analyst", "2024", "desc"))];
    DeleteAddedByText([], ExperienceFields("Acme", "Analyst", "2024", "desc"), now);
    store.DeleteExperience(DecimalText(now));
  }

  /**
   * Deleting every project writes an empty collection, which the first-run
   * seeding on the next load leaves empty.
   */
  method EmptiedStaysEmpty(store: LocalStore, id: string, t1: int, t2: int, t3: int, t4: int)
    requires store.projects.Some? && |store.projects.value| == 1
    requires ParseInt(id) == Some(store.projects.value[0].id)
    modifies store
    ensures store.projects == Some([])
  {
    store.DeleteProject(id);
    store.InitializeApp(t1, t2, t3, t4);
  }
}
