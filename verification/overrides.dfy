/**
 * Local status overrides: a dictionary from `str(Project_ID)` to the status a
 * user chose, kept beside the project list the feature service delivered.
 * The effective status of a project is its override when one exists, else
 * its own `Project_Status`.
 */
module Overrides {
  import opened PyValues
  import opened Records

  /** One entry of the override dictionary. */
  datatype Override = Override(status: string, updatedBy: string, updatedAt: string, originalStatus: string)

  /** The dictionary key of a project: `str(project.get('Project_ID', ''))`. */
  function IdKey(p: Project): string {
    ToStr(Get(p.id, Str("")))
  }

  /** `project.get('Project_Status', 'Unknown')`. */
  function SourceStatus(p: Project): string {
    Get(p.status, "Unknown")
  }

  /** `get_project_effective_status`. */
  function EffectiveStatus(overrides: map<string, Override>, p: Project): string {
    var key := IdKey(p);
    if key in overrides then overrides[key].status else SourceStatus(p)
  }

  /** The source status of the first project whose key is `key`, or 'Unknown'. */
  function OriginalStatus(projects: seq<Project>, key: string): string {
    if projects == [] then "Unknown"
    else if IdKey(projects[0]) == key then SourceStatus(projects[0])
    else OriginalStatus(projects[1..], key)
  }

  /** The dictionary after `update_project_status(projectId, status, updatedBy)`. */
  function RecordOverride(overrides: map<string, Override>, projects: seq<Project>, projectId: string,
                          status: string, updatedBy: string, updatedAt: string): map<string, Override> {
    overrides[projectId := Override(status, updatedBy, updatedAt, OriginalStatus(projects, projectId))]
  }

  /** The dictionary after the reset deletes the entry of `projectId`. */
  function ClearOverride(overrides: map<string, Override>, projectId: string): map<string, Override> {
    overrides - {projectId}
  }

  /**
   * The recorded original status comes from the first project with that key
   * in the source list (never from an earlier override), and is 'Unknown'
   * when no project has that key.
   */
  lemma {:induction false} OriginalStatusIsFirst(projects: seq<Project>, key: string)
    ensures (forall i :: 0 <= i < |projects| ==> IdKey(projects[i]) != key) ==>
      OriginalStatus(projects, key) == "Unknown"
    ensures forall i ::
      (0 <= i < |projects| && IdKey(projects[i]) == key && forall j :: 0 <= j < i ==> IdKey(projects[j]) != key)
      ==> OriginalStatus(projects, key) == SourceStatus(projects[i])
  {
    if projects != [] {
      OriginalStatusIsFirst(projects[1..], key);
      forall i | 0 < i < |projects| && IdKey(projects[i]) == key
        && (forall j :: 0 <= j < i ==> IdKey(projects[j]) != key)
        ensures OriginalStatus(projects, key) == SourceStatus(projects[i])
      {
        assert IdKey(projects[0]) != key;
        assert projects[1..][i - 1] == projects[i];
        assert forall j :: 0 <= j < i - 1 ==> projects[1..][j] == projects[j + 1];
      }
      if forall i :: 0 <= i < |projects| ==> IdKey(projects[i]) != key {
        assert forall i :: 0 <= i < |projects| - 1 ==> projects[1..][i] == projects[i + 1];
      }
    }
  }

  /**
   * An update writes only its own key: reading it back gives the new status,
   * and every other key, and so the effective status of every project with
   * another key, is as before.
   */
  lemma UpdateThenRead(overrides: map<string, Override>, projects: seq<Project>, projectId: string,
                       status: string, updatedBy: string, updatedAt: string, p: Project)
    ensures var updated := RecordOverride(overrides, projects, projectId, status, updatedBy, updatedAt);
      (IdKey(p) == projectId ==> EffectiveStatus(updated, p) == status)
      && (IdKey(p) != projectId ==> EffectiveStatus(updated, p) == EffectiveStatus(overrides, p))
      && updated[projectId].originalStatus == OriginalStatus(projects, projectId)
      && (forall k :: k != projectId ==> (k in updated <==> k in overrides))
      && (forall k :: k != projectId && k in overrides ==> updated[k] == overrides[k])
  {
  }

  /** After the reset the project shows its source status again. */
  lemma ResetReverts(overrides: map<string, Override>, p: Project)
    ensures EffectiveStatus(ClearOverride(overrides, IdKey(p)), p) == SourceStatus(p)
  {
  }
}
