/** What a stop's submission writes and the read path shows, with the keys of the observations written out. */
module ObservationRules {
  import opened Wrappers
  import opened Sequences
  import opened Observations
  import opened CleanLogs
  import OfflineActions

  // -- The types of a submission -----------------------------------------------------------------------

  /** Each of the five cleaning actions is written exactly when its own flag is set. */
  lemma ActionsSubmitted(lower: Lower, ui: UiPayload)
    ensures "picked_up_litter" in Submitted(lower, ui) <==> ui.pickedUpLitter
    ensures "emptied_trash" in Submitted(lower, ui) <==> ui.emptiedTrash
    ensures "washed_shelter" in Submitted(lower, ui) <==> ui.washedShelter
    ensures "washed_pad" in Submitted(lower, ui) <==> ui.washedPad
    ensures "washed_can" in Submitted(lower, ui) <==> ui.washedCan
  {
    SubmittedIffFlag(lower, ui, 0);
    SubmittedIffFlag(lower, ui, 1);
    SubmittedIffFlag(lower, ui, 2);
    SubmittedIffFlag(lower, ui, 3);
    SubmittedIffFlag(lower, ui, 4);
  }

  /** The hazards that are written: none unless a safety concern is stated. */
  function StatedHazards(ui: UiPayload): seq<string> {
    if ui.safetyConcern && ui.safetyHazards.Some? then ui.safetyHazards.value else []
  }

  /** The issues that are written: none unless an infrastructure issue is stated, and with details the ones
      that the details name. */
  function StatedIssues(ui: UiPayload): seq<string> {
    if !ui.infrastructurePresent then []
    else if ui.infraIssueDetails.Some? && |ui.infraIssueDetails.value| > 0 then ui.infraIssueDetails.value
    else if ui.infrastructureIssues.Some? then ui.infrastructureIssues.value
    else []
  }

  /** The keys of the actions done, in their fixed order. */
  function ActionsDone(ui: UiPayload): seq<string> {
    (if ui.pickedUpLitter then ["picked_up_litter"] else [])
    + (if ui.emptiedTrash then ["emptied_trash"] else [])
    + (if ui.washedShelter then ["washed_shelter"] else [])
    + (if ui.washedPad then ["washed_pad"] else [])
    + (if ui.washedCan then ["washed_can"] else [])
  }

  lemma WithActionsSplits(before: seq<string>, keys: seq<string>, flags: seq<bool>)
    requires |keys| == |flags| == 5
    ensures WithActions(before, keys, flags) == before + WithActions([], keys, flags)
  {
  }

  lemma ActionsAre(ui: UiPayload)
    ensures WithActions([], ACTION_KEYS, Flags(ui)) == ActionsDone(ui)
  {
  }

  /** A submission writes one observation per hazard stated, then one per cleaning action done, then one for the
      trash volume if it is given, then one per issue stated. */
  lemma SubmittedIs(lower: Lower, ui: UiPayload) returns (hazards: seq<string>, volume: seq<string>, issues: seq<string>)
    ensures Submitted(lower, ui) == hazards + ActionsDone(ui) + volume + issues
    ensures |hazards| == |StatedHazards(ui)|
    ensures forall k :: 0 <= k < |hazards| ==> hazards[k] == MapSafetyHazard(lower, StatedHazards(ui)[k])
    ensures volume == if ui.trashVolume.Some? then ["trash_volume"] else []
    ensures |issues| == |StatedIssues(ui)|
    ensures forall k :: 0 <= k < |issues| ==> issues[k] == MapInfraIssue(lower, StatedIssues(ui)[k])
  {
    hazards, volume := Map(Hazards(ui), HazardMap(lower)), One("trash_volume", ui.trashVolume.Some?);
    issues := Map(Issues(ui), IssueMap(lower));
    WithActionsSplits(hazards, ACTION_KEYS, Flags(ui));
    ActionsAre(ui);
  }

  /** Hazards by their keys, in any spelling of letters; "active_drug_use" and "traffic" are old names, and a key that
      is not known is some other concern. */
  lemma HazardIs(lower: Lower, h: string)
    ensures lower(h) == "encampment" ==> MapSafetyHazard(lower, h) == "encampment_present"
    ensures lower(h) == "fire" ==> MapSafetyHazard(lower, h) == "fire_present"
    ensures lower(h) == "dangerous_activity" ==> MapSafetyHazard(lower, h) == "dangerous_activity_present"
    ensures lower(h) == "drug_use" || lower(h) == "active_drug_use" ==> MapSafetyHazard(lower, h) == "drug_use_present"
    ensures lower(h) == "violence" ==> MapSafetyHazard(lower, h) == "violence_present"
    ensures lower(h) == "biohazard" ==> MapSafetyHazard(lower, h) == "biohazard_present"
    ensures lower(h) == "access_blocked" || lower(h) == "traffic" ==> MapSafetyHazard(lower, h) == "access_blocked"
    ensures lower(h) !in ["encampment", "fire", "dangerous_activity", "drug_use", "active_drug_use", "violence",
                          "biohazard", "access_blocked", "traffic"] ==>
      MapSafetyHazard(lower, h) == "other_safety_concern_present"
  {
  }

  /** Infrastructure issues by their keys, of which most have an older form. */
  lemma GlassIssueIs(lower: Lower, i: string)
    ensures lower(i) == "glass_damage" || lower(i) == "glass_broken" ==> MapInfraIssue(lower, i) == "glass_damage_present"
    ensures lower(i) == "shelter_panel_damage" || lower(i) == "panel_damaged" ==> MapInfraIssue(lower, i) == "shelter_panel_damage_present"
  {
  }

  lemma LightingIssueIs(lower: Lower, i: string)
    ensures lower(i) == "lighting_failure" || lower(i) == "lighting_out" ==> MapInfraIssue(lower, i) == "lighting_failure_present"
  {
  }

  lemma StructureIssueIs(lower: Lower, i: string)
    ensures lower(i) == "structural_damage" || lower(i) == "structure_damaged" ==> MapInfraIssue(lower, i) == "structural_damage_present"
  {
  }

  lemma SiteIssueIs(lower: Lower, i: string)
    ensures lower(i) == "graffiti" || lower(i) == "graffiti_excessive" ==> MapInfraIssue(lower, i) == "graffiti_present"
    ensures lower(i) == "landscape_obstruction" || lower(i) == "landscaping_blocking" ==> MapInfraIssue(lower, i) == "access_obstructed_by_landscape"
  {
  }

  lemma ReceptacleIssueIs(lower: Lower, i: string)
    ensures lower(i) == "receptacle_damage" || lower(i) == "receptacle_damaged" ==> MapInfraIssue(lower, i) == "receptacle_damage_present"
  {
  }

  lemma WasteIssueIs(lower: Lower, i: string)
    ensures lower(i) == "contaminated_waste" ==> MapInfraIssue(lower, i) == "biohazard_present"
  {
    assert lower(i) == "contaminated_waste" ==> NormalizeInfraKey(lower, i) == "contaminated_waste";
  }

  const ISSUE_KEYS := ["glass_damage", "glass_broken", "graffiti", "graffiti_excessive", "receptacle_damage",
    "receptacle_damaged", "shelter_panel_damage", "panel_damaged", "lighting_failure", "lighting_out",
    "landscape_obstruction", "landscaping_blocking", "structural_damage", "structure_damaged", "contaminated_waste"]

  /** A key that is not known is some other issue. */
  lemma OtherIssueIs(lower: Lower, i: string)
    requires lower(i) !in ISSUE_KEYS
    ensures MapInfraIssue(lower, i) == "other_infrastructure_issue_present"
  {
    var key := lower(i);
    assert key != ISSUE_KEYS[0] && key != ISSUE_KEYS[1] && key != ISSUE_KEYS[2] && key != ISSUE_KEYS[3];
    assert key != ISSUE_KEYS[4] && key != ISSUE_KEYS[5] && key != ISSUE_KEYS[6] && key != ISSUE_KEYS[7];
    assert key != ISSUE_KEYS[8] && key != ISSUE_KEYS[9] && key != ISSUE_KEYS[10] && key != ISSUE_KEYS[11];
    assert key != ISSUE_KEYS[12] && key != ISSUE_KEYS[13] && key != ISSUE_KEYS[14];
  }

  // -- Rows and columns --------------------------------------------------------------------------------

  /** One row per type, in order, for the visit. A type that the registry knows gets the id and the kind that
      the registry gives it; only an action also gets itself as its intervention. */
  lemma RowIs(registry: Registry, visit: VisitId, types: seq<string>, k: nat)
    requires k < |types|
    ensures |RowsOf(registry, visit, types)| == |types|
    ensures var row, t := RowsOf(registry, visit, types)[k], types[k];
      && row.visit == visit && row.obsType == t
      && (t !in registry ==> row.kind == None && row.typeId == None && row.intervention == None)
      && (t in registry ==> row.kind == registry[t].kind && row.typeId == Some(registry[t].id))
      && (t in registry && registry[t].kind == Some("action") ==> row.intervention == Some(t))
      && (t in registry && registry[t].kind != Some("action") ==> row.intervention == None)
  {
  }

  /** Some action row of the visit has the key as its intervention. */
  ghost predicate Shows(rows: seq<Row>, visit: VisitId, key: string) {
    exists k :: 0 <= k < |rows| && rows[k].visit == visit && rows[k].kind == Some("action") && rows[k].intervention == Some(key)
  }

  lemma PivotShows(rows: seq<Row>, visit: VisitId, key: string)
    ensures Pivot(rows, visit, key) <==> Shows(rows, visit, key)
  {
  }

  /** The five columns of the read path. */
  lemma ProjectedColumns(rows: seq<Row>, visit: VisitId)
    ensures var columns := Projection(rows, visit);
      && |columns| == 5
      && (columns[0] <==> Shows(rows, visit, "picked_up_litter"))
      && (columns[1] <==> Shows(rows, visit, "emptied_trash"))
      && (columns[2] <==> Shows(rows, visit, "washed_shelter"))
      && (columns[3] <==> Shows(rows, visit, "washed_pad"))
      && (columns[4] <==> Shows(rows, visit, "washed_can"))
  {
    PivotShows(rows, visit, "picked_up_litter");
    PivotShows(rows, visit, "emptied_trash");
    PivotShows(rows, visit, "washed_shelter");
    PivotShows(rows, visit, "washed_pad");
    PivotShows(rows, visit, "washed_can");
  }

  // -- What events write -------------------------------------------------------------------------------

  /** The handler sees a cleaning when any of the five actions is ticked. */
  lemma ReportIs(ui: UiPayload, photoKeys: bool, spotCheck: bool)
    ensures var r := ReportOf(ui, photoKeys, spotCheck);
      && (r.cleaned <==> ui.pickedUpLitter || ui.emptiedTrash || ui.washedShelter || ui.washedPad || ui.washedCan)
      && r.photoKeys == photoKeys && r.spotCheck == spotCheck && r.trashVolume == ui.trashVolume
  {
    assert Flags(ui)[0] == ui.pickedUpLitter && Flags(ui)[1] == ui.emptiedTrash && Flags(ui)[2] == ui.washedShelter;
    assert Flags(ui)[3] == ui.washedPad && Flags(ui)[4] == ui.washedCan;
  }

  function CompletionBatches(c: Event, visit: VisitId): seq<Batch>
    requires c.Completed?
  {
    (if c.spotCheck then [Batch(visit, c.registry, SpotCheck)] else []) + [Batch(visit, c.registry, Completion(c.ui))]
  }

  /** The observations of an accepted completion: its own submission, and for a spot check one before it that says
      so. */
  lemma CompletionObserved(s: State, visit: VisitId, c: Event)
    requires c.Completed?
    ensures NewBatches(s, c, visit) == if Stepped(s, c).1.Accepted? then CompletionBatches(c, visit) else []
  {
  }

  lemma ContentSubmits(lower: Lower, ui: UiPayload)
    ensures Types(lower, Completion(ui)) == Submitted(lower, ui)
    ensures Types(lower, SpotCheck) == ["spot_check"]
  {
  }

  /** A skip writes its hazards and nothing else. */
  lemma SkipObserved(lower: Lower, hazards: seq<string>)
    ensures |Types(lower, Skip(hazards))| == |hazards|
    ensures forall k :: 0 <= k < |hazards| ==> Types(lower, Skip(hazards))[k] == MapSafetyHazard(lower, hazards[k])
  {
    var mapped, volume, issues := SubmittedIs(lower, SkipPayload(hazards));
    assert Submitted(lower, SkipPayload(hazards)) == mapped;
  }

  /** The query lists a visit that has ended with the outcome "completed", and shows its five columns, if the rows
      are there that it joins. */
  lemma ListedIs(lower: Lower, s: State, visit: VisitId, joined: bool)
    ensures var listed := joined && s.view.visit.Some? && s.view.visit.value.outcome == Some("completed")
                          && s.view.visit.value.endedAt != None;
      ReadBack(lower, s, visit, joined) == if listed then Some(Projection(Written(TypesOf(lower), s.batches), visit)) else None
  {
  }
}
