/**
 * localStorage as the script uses it: the "projects" and "experiences" keys,
 * each absent or holding a collection, and the repository operations that
 * read, modify and write them back. The clock is a parameter (`now`, one
 * reading per call of Date.now()); id arguments arrive as text and are read
 * with parseInt.
 */
module Store {
  import opened Wrappers
  import opened Entities
  import opened JsNumber
  import opened Collection

  class LocalStore {
    var projects: Option<seq<Project>>
    var experiences: Option<seq<Experience>>

    constructor (projects: Option<seq<Project>>, experiences: Option<seq<Experience>>)
      ensures this.projects == projects && this.experiences == experiences
    {
      this.projects := projects;
      this.experiences := experiences;
    }

    /**
     * `initializeApp`: each key that is absent receives its default
     * collection; a present key, even one holding no record, is left alone.
     * `t1`..`t4` are the clock readings taken for the four default records.
     */
    method InitializeApp(t1: int, t2: int, t3: int, t4: int)
      modifies this
      ensures projects == if old(projects).None? then Some(DefaultProjects(t1, t2, t3)) else old(projects)
      ensures experiences == if old(experiences).None? then Some(DefaultExperiences(t4)) else old(experiences)
    {
      if projects.None? {
        SaveProjects(DefaultProjects(t1, t2, t3));
      }
      if experiences.None? {
        SaveExperiences(DefaultExperiences(t4));
      }
    }

    // ---- projects ----

    /** `getProjects`: the stored collection, or no record when the key is absent. */
    method GetProjects() returns (ps: seq<Project>)
      ensures projects.None? ==> ps == []
      ensures projects.Some? ==> ps == projects.value
    {
      ps := projects.GetOr([]);
    }

    /** `saveProjects`: the key holds exactly `ps`; the other key is untouched. */
    method SaveProjects(ps: seq<Project>)
      modifies this
      ensures projects == Some(ps) && experiences == old(experiences)
    {
      projects := Some(ps);
    }

    /** `getProjectById`: the first stored project whose id equals parseInt(id). */
    method GetProjectById(id: string) returns (r: Option<Project>)
      ensures r == FindFirst(projects.GetOr([]), ParseInt(id))
    {
      var ps := GetProjects();
      r := FindFirst(ps, ParseInt(id));
    }

    /** `addProject`: one project with id `now` and the given fields is appended. */
    method AddProject(title: string, description: string, now: int)
      modifies this
      ensures projects == Some(old(projects).GetOr([]) + [Entity(now, ProjectFields(title, description))])
      ensures experiences == old(experiences)
    {
      var ps := GetProjects();
      ps := ps + [Entity(now, ProjectFields(title, description))];
      SaveProjects(ps);
    }

    /**
     * `updateProject`: the first project whose id equals parseInt(id) takes
     * the new title and description; when none does, nothing is written.
     */
    method UpdateProject(id: string, title: string, description: string)
      modifies this
      ensures !Contains(old(projects).GetOr([]), ParseInt(id)) ==> projects == old(projects)
      ensures Contains(old(projects).GetOr([]), ParseInt(id)) ==>
        projects == Some(UpdateFirst(old(projects).GetOr([]), ParseInt(id), ProjectFields(title, description)))
      ensures experiences == old(experiences)
    {
      var ps := GetProjects();
      var index := IndexOfFirst(ps, ParseInt(id));
      if index.Some? {
        ps := ps[index.value := ps[index.value].(fields := ProjectFields(title, description))];
        SaveProjects(ps);
      }
    }

    /**
     * `deleteProject`: the key holds the projects whose id differs from
     * parseInt(id), in their order. The key is written even when nothing was
     * removed, so an absent key becomes an empty collection.
     */
    method DeleteProject(id: string)
      modifies this
      ensures projects == Some(RemoveId(old(projects).GetOr([]), ParseInt(id)))
      ensures experiences == old(experiences)
    {
      var ps := GetProjects();
      SaveProjects(RemoveId(ps, ParseInt(id)));
    }

    // ---- experiences ----

    /** `getExperiences`: the stored collection, or no record when the key is absent. */
    method GetExperiences() returns (es: seq<Experience>)
      ensures experiences.None? ==> es == []
      ensures experiences.Some? ==> es == experiences.value
    {
      es := experiences.GetOr([]);
    }

    /** `saveExperiences`: the key holds exactly `es`; the other key is untouched. */
    method SaveExperiences(es: seq<Experience>)
      modifies this
      ensures experiences == Some(es) && projects == old(projects)
    {
      experiences := Some(es);
    }

    /** `getExperienceById`: the first stored experience whose id equals parseInt(id). */
    method GetExperienceById(id: string) returns (r: Option<Experience>)
      ensures r == FindFirst(experiences.GetOr([]), ParseInt(id))
    {
      var es := GetExperiences();
      r := FindFirst(es, ParseInt(id));
    }

    /** `addExperience`: one experience with id `now` and the given fields is appended. */
    method AddExperience(company: string, role: string, duration: string, description: string, now: int)
      modifies this
      ensures experiences == Some(old(experiences).GetOr([]) + [Entity(now, ExperienceFields(company, role, duration, description))])
      ensures projects == old(projects)
    {
      var es := GetExperiences();
      es := es + [Entity(now, ExperienceFields(company, role, duration, description))];
      SaveExperiences(es);
    }

    /**
     * `updateExperience`: the first experience whose id equals parseInt(id)
     * takes the four new fields; when none does, nothing is written.
     */
    method UpdateExperience(id: string, company: string, role: string, duration: string, description: string)
      modifies this
      ensures !Contains(old(experiences).GetOr([]), ParseInt(id)) ==> experiences == old(experiences)
      ensures Contains(old(experiences).GetOr([]), ParseInt(id)) ==>
        experiences == Some(UpdateFirst(old(experiences).GetOr([]), ParseInt(id),
                                        ExperienceFields(company, role, duration, description)))
      ensures projects == old(projects)
    {
      var es := GetExperiences();
      var index := IndexOfFirst(es, ParseInt(id));
      if index.Some? {
        es := es[index.value := es[index.value].(fields := ExperienceFields(company, role, duration, description))];
        SaveExperiences(es);
      }
    }

    /**
     * `deleteExperience`: the key holds the experiences whose id differs from
     * parseInt(id), in their order; it is written even when nothing was removed.
     */
    method DeleteExperience(id: string)
      modifies this
      ensures experiences == Some(RemoveId(old(experiences).GetOr([]), ParseInt(id)))
      ensures projects == old(projects)
    {
      var es := GetExperiences();
      SaveExperiences(RemoveId(es, ParseInt(id)));
    }
  }
}
