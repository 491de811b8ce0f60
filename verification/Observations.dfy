/** The cleaning booleans of a completion: written as observations, normalised, and read back by the pivot.

    Observations carry their type only; payload details, severities and status grades play no part in the
    read path. `lower` stands for `String.prototype.toLowerCase` and is arbitrary. */
module Observations {
  import opened Sequences
  import opened Wrappers

  type VisitId = nat
  type Lower = string -> string

  // -- Write path ------------------------------------------------------------------------------------

  const ACTION_KEYS := ["picked_up_litter", "emptied_trash", "washed_shelter", "washed_pad", "washed_can"]

  datatype UiPayload = UiPayload(
    safetyConcern: bool, safetyHazards: Option<seq<string>>,
    pickedUpLitter: bool, emptiedTrash: bool, washedShelter: bool, washedPad: bool, washedCan: bool,
    trashVolume: Option<int>,
    infrastructurePresent: bool, infrastructureIssues: Option<seq<string>>, infraIssueDetails: Option<seq<string>>)

  function Flags(ui: UiPayload): seq<bool> {
    [ui.pickedUpLitter, ui.emptiedTrash, ui.washedShelter, ui.washedPad, ui.washedCan]
  }

  function NormalizeSafetyKey(lower: Lower, k: string): string {
    var key := lower(k);
    if key == "active_drug_use" then "drug_use" else if key == "traffic" then "access_blocked" else key
  }

  function NormalizeInfraKey(lower: Lower, k: string): string {
    var key := lower(k);
    if key == "glass_broken" then "glass_damage"
    else if key == "graffiti_excessive" then "graffiti"
    else if key == "receptacle_damaged" then "receptacle_damage"
    else if key == "panel_damaged" then "shelter_panel_damage"
    else if key == "lighting_out" then "lighting_failure"
    else if key == "landscaping_blocking" then "landscape_obstruction"
    else if key == "structure_damaged" then "structural_damage"
    else if key == "other_infra_issue" then "other"
    else key
  }

  const OTHER_SAFETY := "other_safety_concern_present"
  const OTHER_INFRA := "other_infrastructure_issue_present"

  /** Set apart from the five action keys by its first two letters. */
  predicate NoActionKey(obsType: string) {
    |obsType| >= 2 && obsType[0] != 'p' && obsType[0] != 'w' && (obsType[0] == 'e' ==> obsType[1] != 'm')
  }

  function MapSafetyHazard(lower: Lower, h: string): (obsType: string)
    ensures NoActionKey(obsType)
  {
    var norm := NormalizeSafetyKey(lower, h);
    if norm == "encampment" then "encampment_present"
    else if norm == "fire" then "fire_present"
    else if norm == "dangerous_activity" then "dangerous_activity_present"
    else if norm == "drug_use" then "drug_use_present"
    else if norm == "violence" then "violence_present"
    else if norm == "biohazard" then "biohazard_present"
    else if norm == "access_blocked" then "access_blocked"
    else OTHER_SAFETY
  }

  function MapInfraIssue(lower: Lower, i: string): (obsType: string)
    ensures NoActionKey(obsType)
  {
    var norm := NormalizeInfraKey(lower, i);
    if norm == "glass_damage" then "glass_damage_present"
    else if norm == "graffiti" then "graffiti_present"
    else if norm == "receptacle_damage" then "receptacle_damage_present"
    else if norm == "shelter_panel_damage" then "shelter_panel_damage_present"
    else if norm == "lighting_failure" then "lighting_failure_present"
    else if norm == "landscape_obstruction" then "access_obstructed_by_landscape"
    else if norm == "structural_damage" then "structural_damage_present"
    else if norm == "contaminated_waste" then "biohazard_present"
    else OTHER_INFRA
  }

  function Hazards(ui: UiPayload): seq<string> {
    if ui.safetyConcern then ui.safetyHazards.GetOr([]) else []
  }

  /** The detailed issues when there are any, else the flat list. */
  function Issues(ui: UiPayload): seq<string> {
    if !ui.infrastructurePresent then []
    else if ui.infraIssueDetails.Some? && ui.infraIssueDetails.value != [] then ui.infraIssueDetails.value
    else ui.infrastructureIssues.GetOr([])
  }

  function One(key: string, flag: bool): seq<string> {
    if flag then [key] else []
  }

  /** One observation for every action that was done, none for the others. */
  function WithActions(before: seq<string>, keys: seq<string>, flags: seq<bool>): seq<string>
    requires |keys| == |flags| == 5
  {
    before + One(keys[0], flags[0]) + One(keys[1], flags[1]) + One(keys[2], flags[2]) + One(keys[3], flags[3])
    + One(keys[4], flags[4])
  }

  function HazardMap(lower: Lower): string -> string {
    (h: string) => MapSafetyHazard(lower, h)
  }

  function IssueMap(lower: Lower): string -> string {
    (i: string) => MapInfraIssue(lower, i)
  }

  /** The observation types of a submission, in the order they are written. */
  function Submitted(lower: Lower, ui: UiPayload): seq<string> {
    WithActions(Map(Hazards(ui), HazardMap(lower)), ACTION_KEYS, Flags(ui)) + One("trash_volume", ui.trashVolume.Some?)
    + Map(Issues(ui), IssueMap(lower))
  }

  method PushMapped(before: seq<string>, keys: seq<string>, mapped: string -> string) returns (obs: seq<string>)
    ensures obs == before + Map(keys, mapped)
  {
    obs := before;
    for k := 0 to |keys|
      invariant |obs| == |before| + k && obs[..|before|] == before
      invariant forall i :: 0 <= i < k ==> obs[|before| + i] == mapped(keys[i])
    {
      obs := obs + [mapped(keys[k])];
    }
    assert obs[|before|..] == Map(keys, mapped);
    assert obs == obs[..|before|] + obs[|before|..];
  }

  method PushIf(before: seq<string>, flag: bool, key: string) returns (obs: seq<string>)
    ensures obs == before + One(key, flag)
  {
    obs := before;
    if flag {
      obs := obs + [key];
    }
  }

  method SubmitObservations(lower: Lower, ui: UiPayload) returns (obs: seq<string>)
    ensures obs == Submitted(lower, ui)
  {
    obs := [];
    if ui.safetyConcern {
      obs := PushMapped(obs, ui.safetyHazards.GetOr([]), HazardMap(lower));
    }
    assert obs == Map(Hazards(ui), HazardMap(lower));
    obs := PushActions(obs, ACTION_KEYS, Flags(ui));
    obs := PushIf(obs, ui.trashVolume.Some?, "trash_volume");
    obs := PushIssues(obs, lower, ui);
  }

  /** The five `if`s over the cleaning actions. */
  method PushActions(before: seq<string>, keys: seq<string>, flags: seq<bool>) returns (obs: seq<string>)
    requires |keys| == |flags| == 5
    ensures obs == WithActions(before, keys, flags)
  {
    obs := PushIf(before, flags[0], keys[0]);
    obs := PushIf(obs, flags[1], keys[1]);
    obs := PushIf(obs, flags[2], keys[2]);
    obs := PushIf(obs, flags[3], keys[3]);
    obs := PushIf(obs, flags[4], keys[4]);
  }

  method PushIssues(before: seq<string>, lower: Lower, ui: UiPayload) returns (obs: seq<string>)
    ensures obs == before + Map(Issues(ui), IssueMap(lower))
  {
    obs := before;
    if ui.infrastructurePresent {
      if ui.infraIssueDetails.Some? && |ui.infraIssueDetails.value| > 0 {
        obs := PushMapped(obs, ui.infraIssueDetails.value, IssueMap(lower));
      } else {
        obs := PushMapped(obs, ui.infrastructureIssues.GetOr([]), IssueMap(lower));
      }
    } else {
      assert obs + [] == obs;
    }
  }

  // -- Normalisation and insertion -------------------------------------------------------------------

  datatype Rule = Rule(id: int, kind: Option<string>)

  type Registry = map<string, Rule>

  datatype Row = Row(visit: VisitId, obsType: string, kind: Option<string>, intervention: Option<string>,
                     typeId: Option<int>)

  const ACTION := "action"

  /** An unknown type is written with empty normalised fields; an action carries its own type. */
  function Normalize(rule: Option<Rule>, visit: VisitId, obsType: string): Row {
    match rule
    case None => Row(visit, obsType, None, None, None)
    case Some(r) => Row(visit, obsType, r.kind, if r.kind == Some(ACTION) then Some(obsType) else None, Some(r.id))
  }

  function LookUp(registry: Registry, key: string): Option<Rule> {
    if key in registry then Some(registry[key]) else None
  }

  function RowsOf(registry: Registry, visit: VisitId, types: seq<string>): seq<Row> {
    Map(types, (t: string) => Normalize(LookUp(registry, t), visit, t))
  }

  class ObservationTable {
    var rows: seq<Row>

    constructor ()
      ensures rows == []
    {
      rows := [];
    }

    /** One registry query for the batch, then one insertion per observation. */
    method InsertObservations(registry: Registry, visit: VisitId, types: seq<string>)
      modifies this
      ensures rows == old(rows) + RowsOf(registry, visit, types)
    {
      var rules := map k | k in types && k in registry :: registry[k];
      ghost var before := rows;
      for k := 0 to |types|
        invariant |rows| == |before| + k && rows[..|before|] == before
        invariant forall i :: 0 <= i < k ==>
          rows[|before| + i] == Normalize(LookUp(registry, types[i]), visit, types[i])
      {
        assert LookUp(rules, types[k]) == LookUp(registry, types[k]);
        rows := rows + [Normalize(LookUp(rules, types[k]), visit, types[k])];
      }
      assert rows[|before|..] == RowsOf(registry, visit, types);
      assert rows == rows[..|before|] + rows[|before|..];
    }

    /** `emitObservationsForStop`: nothing is inserted for an empty submission. */
    method Emit(lower: Lower, registry: Registry, visit: VisitId, ui: UiPayload)
      modifies this
      ensures rows == old(rows) + RowsOf(registry, visit, Submitted(lower, ui))
    {
      var types := SubmitObservations(lower, ui);
      if types == [] {
        return;
      }
      InsertObservations(registry, visit, types);
    }
  }

  // -- Read path -------------------------------------------------------------------------------------

  /** `COALESCE(bool_or(o.intervention = key), false)` over the action rows of the visit. */
  predicate Pivot(rows: seq<Row>, visit: VisitId, key: string) {
    exists r :: r in rows && r.visit == visit && r.kind == Some(ACTION) && r.intervention == Some(key)
  }

  /** The five columns, in the order of the fixed keys. */
  function Projection(rows: seq<Row>, visit: VisitId): seq<bool> {
    Map(ACTION_KEYS, (key: string) => Pivot(rows, visit, key))
  }

  predicate MarksAsAction(registry: Registry, key: string) {
    key in registry && registry[key].kind == Some(ACTION)
  }

  lemma ActionKeysDiffer(key: string)
    requires key in ACTION_KEYS
    ensures !NoActionKey(key) && key != "trash_volume" && key != "spot_check"
  {
    assert key[1] in "ima";
    assert "trash_volume"[1] == 'r' && "spot_check"[1] == 'p';
  }

  lemma ActionKeysAreDistinct()
    ensures forall i, j :: 0 <= i < j < 5 ==> ACTION_KEYS[i] != ACTION_KEYS[j]
  {
    assert ACTION_KEYS[0][0] == 'p' && ACTION_KEYS[1][0] == 'e';
    assert ACTION_KEYS[2][7] == 's' && ACTION_KEYS[3][7] == 'p' && ACTION_KEYS[4][7] == 'c';
    assert ACTION_KEYS[2][0] == 'w' && ACTION_KEYS[3][0] == 'w' && ACTION_KEYS[4][0] == 'w';
  }

  lemma InWithActions(before: seq<string>, keys: seq<string>, flags: seq<bool>, i: nat)
    requires |keys| == |flags| == 5 && i < 5 && keys[i] !in before
    requires forall j, k :: 0 <= j < k < 5 ==> keys[j] != keys[k]
    ensures keys[i] in WithActions(before, keys, flags) <==> flags[i]
  {
  }

  lemma MappedKeysDiffer(lower: Lower, ui: UiPayload, key: string)
    requires !NoActionKey(key)
    ensures key !in Map(Hazards(ui), HazardMap(lower)) && key !in Map(Issues(ui), IssueMap(lower))
  {
  }

  /** A submission writes an action key exactly when its flag is set, whatever hazards and issues it lists. */
  lemma SubmittedIffFlag(lower: Lower, ui: UiPayload, i: nat)
    requires i < 5
    ensures ACTION_KEYS[i] in Submitted(lower, ui) <==> Flags(ui)[i]
  {
    ActionKeysDiffer(ACTION_KEYS[i]);
    ActionKeysAreDistinct();
    MappedKeysDiffer(lower, ui, ACTION_KEYS[i]);
    InWithActions(Map(Hazards(ui), HazardMap(lower)), ACTION_KEYS, Flags(ui), i);
  }

  // -- Round trip ------------------------------------------------------------------------------------

  /** A batch of observations for a visit: a completion, a skip with its hazards, or a spot check. */
  datatype Content = Completion(ui: UiPayload) | Skip(hazards: seq<string>) | SpotCheck

  datatype Batch = Batch(visit: VisitId, registry: Registry, content: Content)

  function SkipPayload(hazards: seq<string>): UiPayload {
    UiPayload(true, Some(hazards), false, false, false, false, false, None, false, None, None)
  }

  function Types(lower: Lower, content: Content): seq<string> {
    match content
    case Completion(ui) => Submitted(lower, ui)
    case Skip(hazards) => Submitted(lower, SkipPayload(hazards))
    case SpotCheck => ["spot_check"]
  }

  function TypesOf(lower: Lower): Content -> seq<string> {
    (content: Content) => Types(lower, content)
  }

  /** The rows of all batches; `types` says what a batch submits. */
  function Written(types: Content -> seq<string>, batches: seq<Batch>): seq<Row> {
    if batches == [] then []
    else
      var last := batches[|batches| - 1];
      Written(types, batches[..|batches| - 1]) + RowsOf(last.registry, last.visit, types(last.content))
  }

  predicate Records(types: Content -> seq<string>, batch: Batch, visit: VisitId, key: string) {
    batch.visit == visit && key in types(batch.content) && MarksAsAction(batch.registry, key)
  }

  lemma PivotOfTypes(registry: Registry, batchVisit: VisitId, visit: VisitId, types: seq<string>, key: string)
    ensures Pivot(RowsOf(registry, batchVisit, types), visit, key)
      <==> batchVisit == visit && key in types && MarksAsAction(registry, key)
  {
    var rows := RowsOf(registry, batchVisit, types);
    if Pivot(rows, visit, key) {
      var r :| r in rows && r.visit == visit && r.kind == Some(ACTION) && r.intervention == Some(key);
      var k :| 0 <= k < |rows| && rows[k] == r;
      assert types[k] == key;
    }
    if batchVisit == visit && key in types && MarksAsAction(registry, key) {
      var k :| 0 <= k < |types| && types[k] == key;
      assert rows[k] in rows;
    }
  }

  lemma PivotOfConcat(a: seq<Row>, b: seq<Row>, visit: VisitId, key: string)
    ensures Pivot(a + b, visit, key) <==> Pivot(a, visit, key) || Pivot(b, visit, key)
  {
  }

  /** After any batches, the pivot shows a key exactly when some batch of the visit submitted it at a time
      when the registry marked it as an action. */
  lemma {:induction false} PivotIff(types: Content -> seq<string>, batches: seq<Batch>, visit: VisitId, key: string)
    ensures Pivot(Written(types, batches), visit, key) <==> exists b :: b in batches && Records(types, b, visit, key)
    decreases |batches|
  {
    if batches != [] {
      var last, before := batches[|batches| - 1], batches[..|batches| - 1];
      PivotIff(types, before, visit, key);
      PivotOfTypes(last.registry, last.visit, visit, types(last.content), key);
      var lastRows := RowsOf(last.registry, last.visit, types(last.content));
      PivotOfConcat(Written(types, before), lastRows, visit, key);
      assert Pivot(lastRows, visit, key) <==> Records(types, last, visit, key);
      assert last in batches && forall b :: b in batches <==> b in before || b == last;
    }
  }

  /** The one completion of a visit among all batches. */
  ghost predicate OnlyCompletion(batches: seq<Batch>, c: Batch) {
    && c in batches && c.content.Completion?
    && forall b :: b in batches && b.visit == c.visit && b.content.Completion? ==> b == c
  }

  lemma OnlyCompletionsSubmit(lower: Lower, content: Content, i: nat)
    requires i < 5
    ensures ACTION_KEYS[i] in Types(lower, content) <==> content.Completion? && Flags(content.ui)[i]
  {
    match content
    case Completion(ui) => SubmittedIffFlag(lower, ui, i);
    case Skip(hazards) => SubmittedIffFlag(lower, SkipPayload(hazards), i);
    case SpotCheck => ActionKeysDiffer(ACTION_KEYS[i]);
  }

  lemma PivotOfCompletion(lower: Lower, batches: seq<Batch>, c: Batch, i: nat)
    requires OnlyCompletion(batches, c) && i < 5
    ensures Pivot(Written(TypesOf(lower), batches), c.visit, ACTION_KEYS[i])
      <==> Flags(c.content.ui)[i] && MarksAsAction(c.registry, ACTION_KEYS[i])
  {
    var key := ACTION_KEYS[i];
    PivotIff(TypesOf(lower), batches, c.visit, key);
    OnlyCompletionsSubmit(lower, c.content, i);
    forall b | b in batches && Records(TypesOf(lower), b, c.visit, key) ensures b == c {
      OnlyCompletionsSubmit(lower, b.content, i);
    }
    assert Records(TypesOf(lower), c, c.visit, key) <==> Flags(c.content.ui)[i] && MarksAsAction(c.registry, key);
  }

  /** The registry marks every key that the completion submits. */
  predicate MarksSubmitted(c: Batch)
    requires c.content.Completion?
  {
    forall i :: 0 <= i < 5 && Flags(c.content.ui)[i] ==> MarksAsAction(c.registry, ACTION_KEYS[i])
  }

  lemma ProjectionIs(rows: seq<Row>, c: Batch)
    requires c.content.Completion?
    requires forall i :: 0 <= i < 5 ==>
      (Pivot(rows, c.visit, ACTION_KEYS[i]) <==> Flags(c.content.ui)[i] && MarksAsAction(c.registry, ACTION_KEYS[i]))
    ensures Projection(rows, c.visit) == Flags(c.content.ui) <==> MarksSubmitted(c)
  {
    var projected, flags := Projection(rows, c.visit), Flags(c.content.ui);
    assert forall i :: 0 <= i < 5 ==> projected[i] == Pivot(rows, c.visit, ACTION_KEYS[i]);
    if MarksSubmitted(c) {
      assert forall i :: 0 <= i < 5 ==> projected[i] == flags[i];
    }
  }

  /** The five projected columns of a visit are the booleans of its one completion, whatever else was written,
      exactly when the registry marked every key whose flag was set. */
  lemma ProjectionOfCompletionIff(lower: Lower, batches: seq<Batch>, c: Batch)
    requires OnlyCompletion(batches, c)
    ensures Projection(Written(TypesOf(lower), batches), c.visit) == Flags(c.content.ui) <==> MarksSubmitted(c)
  {
    forall i | 0 <= i < 5
      ensures Pivot(Written(TypesOf(lower), batches), c.visit, ACTION_KEYS[i])
        <==> Flags(c.content.ui)[i] && MarksAsAction(c.registry, ACTION_KEYS[i])
    {
      PivotOfCompletion(lower, batches, c, i);
    }
    ProjectionIs(Written(TypesOf(lower), batches), c);
  }
}
