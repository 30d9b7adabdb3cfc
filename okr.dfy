/** The browser client's OKR editor: a list of objectives, each with an optional list of
    key results, edited by the objective and key-result forms and by the toggle and
    delete buttons. Fresh ids and the confirmation answer are parameters. */
module Okr {
  import opened Wrappers
  import opened Lists
  import Frontend

  datatype KeyResult = KeyResult(id: string, content: string, done: bool)

  /** `keyResults` may be missing from an objective read back from storage. */
  datatype Objective = Objective(id: string, title: string, keyResults: Option<seq<KeyResult>>)

  function Ids(objs: seq<Objective>): (r: seq<string>)
    ensures |r| == |objs| && forall k :: 0 <= k < |objs| ==> r[k] == objs[k].id
  {
    seq(|objs|, k requires 0 <= k < |objs| => objs[k].id)
  }

  function KrIds(krs: seq<KeyResult>): (r: seq<string>)
    ensures |r| == |krs| && forall k :: 0 <= k < |krs| ==> r[k] == krs[k].id
  {
    seq(|krs|, k requires 0 <= k < |krs| => krs[k].id)
  }

  /** `objectives.find(x => x.id === id)`, as the position it is found at. */
  function FindObjective(objs: seq<Objective>, id: string): (r: Option<nat>)
    ensures r.Some? ==> r.value < |objs| && objs[r.value].id == id
    ensures r.Some? ==> forall k :: 0 <= k < r.value ==> objs[k].id != id
    ensures r.None? <==> forall k :: 0 <= k < |objs| ==> objs[k].id != id
  {
    var r := FirstIndex(Ids(objs), id);
    assert r.None? ==> forall k :: 0 <= k < |objs| ==> Ids(objs)[k] != id;
    r
  }

  /** `keyResults.find(x => x.id === id)`, as the position it is found at. */
  function FindKr(krs: seq<KeyResult>, id: string): (r: Option<nat>)
    ensures r.Some? ==> r.value < |krs| && krs[r.value].id == id
    ensures r.Some? ==> forall k :: 0 <= k < r.value ==> krs[k].id != id
    ensures r.None? <==> forall k :: 0 <= k < |krs| ==> krs[k].id != id
  {
    var r := FirstIndex(KrIds(krs), id);
    assert r.None? ==> forall k :: 0 <= k < |krs| ==> KrIds(krs)[k] != id;
    r
  }

  // ---------------------------------------------------------------- the handlers' effect

  /** The objective at position `i` renamed; ids and the other objectives are kept. */
  function Renamed(objs: seq<Objective>, i: nat, title: string): (r: seq<Objective>)
    requires i < |objs|
    ensures |r| == |objs| && Ids(r) == Ids(objs)
    ensures r[i] == objs[i].(title := title)
    ensures forall k :: 0 <= k < |objs| && k != i ==> r[k] == objs[k]
  {
    var r := objs[i := objs[i].(title := title)];
    assert forall k :: 0 <= k < |objs| ==> Ids(r)[k] == Ids(objs)[k];
    r
  }

  /** The objective form: a blank title does nothing; with an id, the first objective
      with that id is renamed and an unknown id changes nothing; without one, a new
      objective with no key results is appended. */
  function ObjectiveSubmitted(objs: seq<Objective>, idField: string, titleField: string, freshId: string): (r: seq<Objective>)
    ensures Frontend.JsTrim(titleField) == "" ==> r == objs
    ensures Frontend.JsTrim(titleField) != "" && idField == "" ==>
              r == objs + [Objective(freshId, Frontend.JsTrim(titleField), Some([]))]
    ensures idField != "" ==> Ids(r) == Ids(objs)
    ensures idField != "" && FindObjective(objs, idField).None? ==> r == objs
    ensures idField != "" && Frontend.JsTrim(titleField) != "" && FindObjective(objs, idField).Some? ==>
              r == Renamed(objs, FindObjective(objs, idField).value, Frontend.JsTrim(titleField))
    ensures idField != "" ==> forall k :: 0 <= k < |objs| && objs[k].id != idField ==> r[k] == objs[k]
  {
    var title := Frontend.JsTrim(titleField);
    if title == "" then objs
    else if idField != "" then
      var i := FindObjective(objs, idField);
      if i.None? then objs else Renamed(objs, i.value, title)
    else objs + [Objective(freshId, title, Some([]))]
  }

  /** The key-result form: blank content or an unknown objective does nothing; otherwise
      one undone key result is appended to the first objective with that id, whose
      missing list starts empty. */
  function KrSubmitted(objs: seq<Objective>, oId: string, contentField: string, freshId: string): (r: seq<Objective>)
    ensures Frontend.JsTrim(contentField) == "" || FindObjective(objs, oId).None? ==> r == objs
    ensures |r| == |objs| && Ids(r) == Ids(objs)
    ensures forall k :: 0 <= k < |objs| && objs[k].id != oId ==> r[k] == objs[k]
    ensures Frontend.JsTrim(contentField) != "" && FindObjective(objs, oId).Some? ==>
              var i := FindObjective(objs, oId).value;
              && r[i].title == objs[i].title
              && r[i].keyResults == Some(objs[i].keyResults.GetOr([]) + [KeyResult(freshId, Frontend.JsTrim(contentField), false)])
  {
    var content := Frontend.JsTrim(contentField);
    var i := FindObjective(objs, oId);
    if content == "" || i.None? then objs
    else
      var o := objs[i.value];
      var krs := o.keyResults.GetOr([]);
      objs[i.value := o.(keyResults := Some(krs + [KeyResult(freshId, content, false)]))]
  }

  /** The first key result with id `krId` has `done` flipped; the rest are unchanged. */
  function FlipKr(krs: seq<KeyResult>, krId: string): (r: seq<KeyResult>)
    ensures |r| == |krs| && KrIds(r) == KrIds(krs)
    ensures FindKr(krs, krId).None? ==> r == krs
    ensures FindKr(krs, krId).Some? ==>
              var j := FindKr(krs, krId).value;
              r == krs[j := krs[j].(done := !krs[j].done)]
  {
    var j := FindKr(krs, krId);
    if j.None? then krs else krs[j.value := krs[j.value].(done := !krs[j.value].done)]
  }

  /** `toggleKrDone`: nothing for an unknown objective or one without a key-result list;
      otherwise the matching key result of the first objective with that id flips. */
  function KrToggled(objs: seq<Objective>, oId: string, krId: string): (r: seq<Objective>)
    ensures |r| == |objs| && Ids(r) == Ids(objs)
    ensures forall k :: 0 <= k < |objs| && objs[k].id != oId ==> r[k] == objs[k]
    ensures FindObjective(objs, oId).None? ==> r == objs
    ensures FindObjective(objs, oId).Some? ==>
              var i := FindObjective(objs, oId).value;
              && r[i].title == objs[i].title
              && (objs[i].keyResults.None? ==> r[i] == objs[i])
              && (objs[i].keyResults.Some? ==> r[i].keyResults == Some(FlipKr(objs[i].keyResults.value, krId)))
  {
    var i := FindObjective(objs, oId);
    if i.None? || objs[i.value].keyResults.None? then objs
    else
      var o := objs[i.value];
      objs[i.value := o.(keyResults := Some(FlipKr(o.keyResults.value, krId)))]
  }

  function KrIdIsNot(krId: string): KeyResult -> bool {
    (x: KeyResult) => x.id != krId
  }

  function ObjectiveIdIsNot(id: string): Objective -> bool {
    (x: Objective) => x.id != id
  }

  /** `deleteKr`: the first objective with that id keeps the key results whose id
      differs, in order. */
  function KrDeleted(objs: seq<Objective>, oId: string, krId: string): (r: seq<Objective>)
    ensures |r| == |objs| && Ids(r) == Ids(objs)
    ensures forall k :: 0 <= k < |objs| && objs[k].id != oId ==> r[k] == objs[k]
    ensures FindObjective(objs, oId).None? ==> r == objs
    ensures FindObjective(objs, oId).Some? ==>
              var i := FindObjective(objs, oId).value;
              && r[i].title == objs[i].title
              && (objs[i].keyResults.None? ==> r[i] == objs[i])
              && (objs[i].keyResults.Some? ==> r[i].keyResults == Some(Keep(objs[i].keyResults.value, KrIdIsNot(krId))))
  {
    var i := FindObjective(objs, oId);
    if i.None? || objs[i.value].keyResults.None? then objs
    else
      var o := objs[i.value];
      objs[i.value := o.(keyResults := Some(Keep(o.keyResults.value, KrIdIsNot(krId))))]
  }

  /** `deleteObjective`: once confirmed, the objectives whose id differs, in order. */
  function ObjectiveDeleted(objs: seq<Objective>, id: string, confirmed: bool): (r: seq<Objective>)
    ensures !confirmed ==> r == objs
    ensures confirmed ==> forall k :: 0 <= k < |r| ==> r[k].id != id && r[k] in objs
    ensures confirmed ==> forall k :: 0 <= k < |objs| && objs[k].id != id ==> objs[k] in r
  {
    if confirmed then Keep(objs, ObjectiveIdIsNot(id)) else objs
  }

  // ---------------------------------------------------------------- properties

  /** With distinct ids, renaming touches the objective carrying the id and no other. */
  lemma RenameOnlyMatching(objs: seq<Objective>, idField: string, titleField: string, freshId: string, k: nat)
    requires Distinct(Ids(objs)) && k < |objs| && objs[k].id == idField
    requires idField != "" && Frontend.JsTrim(titleField) != ""
    ensures ObjectiveSubmitted(objs, idField, titleField, freshId)[k] == objs[k].(title := Frontend.JsTrim(titleField))
  {
    FirstIsOnly(Ids(objs), idField, k);
  }

  /** A fresh id keeps objective ids distinct through every objective submission. */
  lemma SubmitKeepsIdsDistinct(objs: seq<Objective>, idField: string, titleField: string, freshId: string)
    requires Distinct(Ids(objs)) && freshId !in Ids(objs)
    ensures Distinct(Ids(ObjectiveSubmitted(objs, idField, titleField, freshId)))
  {
    var r := ObjectiveSubmitted(objs, idField, titleField, freshId);
    if Frontend.JsTrim(titleField) != "" && idField == "" {
      assert Ids(r) == Ids(objs) + [freshId];
    }
  }

  /** With distinct key-result ids, a new key result lands on the objective carrying
      the id and nowhere else. */
  lemma KrSubmitOnlyMatching(objs: seq<Objective>, oId: string, contentField: string, freshId: string, k: nat)
    requires Distinct(Ids(objs)) && k < |objs| && objs[k].id == oId
    requires Frontend.JsTrim(contentField) != ""
    ensures KrSubmitted(objs, oId, contentField, freshId)[k].keyResults
            == Some(objs[k].keyResults.GetOr([]) + [KeyResult(freshId, Frontend.JsTrim(contentField), false)])
  {
    FirstIsOnly(Ids(objs), oId, k);
  }

  /** Flipping the same key result twice restores the list. */
  lemma FlipTwice(krs: seq<KeyResult>, krId: string)
    ensures FlipKr(FlipKr(krs, krId), krId) == krs
  {
    assert FindKr(FlipKr(krs, krId), krId) == FindKr(krs, krId) by {
      assert KrIds(FlipKr(krs, krId)) == KrIds(krs);
    }
  }

  /** Toggling the same key result twice restores the board. */
  lemma ToggleTwice(objs: seq<Objective>, oId: string, krId: string)
    ensures KrToggled(KrToggled(objs, oId, krId), oId, krId) == objs
  {
    var once := KrToggled(objs, oId, krId);
    var i := FindObjective(objs, oId);
    assert FindObjective(once, oId) == i by {
      assert Ids(once) == Ids(objs);
    }
    if i.Some? && objs[i.value].keyResults.Some? {
      var krs := objs[i.value].keyResults.value;
      FlipTwice(krs, krId);
      assert once == objs[i.value := objs[i.value].(keyResults := Some(FlipKr(krs, krId)))];
    }
  }

  /** With distinct key-result ids, toggling flips that key result's `done` and
      leaves every other key result as it was. */
  lemma ToggleOnlyMatching(krs: seq<KeyResult>, krId: string, k: nat)
    requires Distinct(KrIds(krs)) && k < |krs| && krs[k].id == krId
    ensures FlipKr(krs, krId) == krs[k := krs[k].(done := !krs[k].done)]
  {
    FirstIsOnly(KrIds(krs), krId, k);
  }

  /** Confirming the deletion of an id no objective has changes nothing. */
  lemma DeleteUnknownIsNoOp(objs: seq<Objective>, id: string)
    requires id !in Ids(objs)
    ensures ObjectiveDeleted(objs, id, true) == objs
  {
    assert forall k :: 0 <= k < |objs| ==> ObjectiveIdIsNot(id)(objs[k]) by {
      forall k | 0 <= k < |objs| ensures ObjectiveIdIsNot(id)(objs[k]) {
        assert Ids(objs)[k] == objs[k].id;
      }
    }
    KeepAll(objs, ObjectiveIdIsNot(id));
  }

  /** Filtering out one failing element between passing ones leaves the rest joined. */
  lemma KeepDropsOne<T>(a: seq<T>, x: T, b: seq<T>, p: T -> bool)
    requires forall j :: 0 <= j < |a| ==> p(a[j])
    requires forall j :: 0 <= j < |b| ==> p(b[j])
    requires !p(x)
    ensures Keep(a + [x] + b, p) == a + b
  {
    KeepConcat(a + [x], b, p);
    KeepConcat(a, [x], p);
    KeepAll(a, p);
    KeepAll(b, p);
    assert Keep([x], p) == [];
    assert a + [] == a;
  }

  /** With distinct ids, confirming a deletion removes exactly the objective carrying
      the id and keeps the others in their order. */
  lemma DeleteRemovesExactlyOne(objs: seq<Objective>, k: nat)
    requires Distinct(Ids(objs)) && k < |objs|
    ensures ObjectiveDeleted(objs, objs[k].id, true) == objs[..k] + objs[k + 1..]
  {
    var ids := Ids(objs);
    var p := ObjectiveIdIsNot(objs[k].id);
    var a, b := objs[..k], objs[k + 1..];
    assert objs == a + [objs[k]] + b;
    forall j | 0 <= j < |a| ensures p(a[j]) {
      assert a[j] == objs[j];
      assert ids[j] != ids[k];
    }
    forall j | 0 <= j < |b| ensures p(b[j]) {
      assert b[j] == objs[k + 1 + j];
      assert ids[k] != ids[k + 1 + j];
    }
    KeepDropsOne(a, objs[k], b, p);
  }

  /** Deleting a key result twice is deleting it once. */
  lemma DeleteKrIdempotent(objs: seq<Objective>, oId: string, krId: string)
    ensures KrDeleted(KrDeleted(objs, oId, krId), oId, krId) == KrDeleted(objs, oId, krId)
  {
    var once := KrDeleted(objs, oId, krId);
    var i := FindObjective(objs, oId);
    assert FindObjective(once, oId) == i by {
      assert FirstIndex(Ids(once), oId) == FirstIndex(Ids(objs), oId);
    }
    if i.Some? && objs[i.value].keyResults.Some? {
      var kept := Keep(objs[i.value].keyResults.value, KrIdIsNot(krId));
      KeepAll(kept, KrIdIsNot(krId));
    }
  }

  // ---------------------------------------------------------------- the editor

  /** The `objectives` array the OKR view edits. */
  class OkrBoard {
    var objectives: seq<Objective>

    constructor ()
      ensures objectives == []
    {
      objectives := [];
    }

    /** The objective form's submit handler. */
    method SubmitObjective(idField: string, titleField: string, freshId: string)
      modifies this
      ensures objectives == ObjectiveSubmitted(old(objectives), idField, titleField, freshId)
    {
      var title := Frontend.JsTrim(titleField);
      if title == "" {
        return;
      }
      if idField != "" {
        var i := FindObjective(objectives, idField);
        if i.Some? {
          objectives := objectives[i.value := objectives[i.value].(title := title)];
          assert objectives == Renamed(old(objectives), i.value, title);
        }
      } else {
        objectives := objectives + [Objective(freshId, title, Some([]))];
      }
    }

    /** The key-result form's submit handler. */
    method SubmitKr(oId: string, contentField: string, freshId: string)
      modifies this
      ensures objectives == KrSubmitted(old(objectives), oId, contentField, freshId)
    {
      var content := Frontend.JsTrim(contentField);
      if content == "" {
        return;
      }
      var i := FindObjective(objectives, oId);
      if i.None? {
        return;
      }
      var o := objectives[i.value];
      if o.keyResults.None? {
        o := o.(keyResults := Some([]));
      }
      o := o.(keyResults := Some(o.keyResults.value + [KeyResult(freshId, content, false)]));
      objectives := objectives[i.value := o];
    }

    method ToggleKrDone(oId: string, krId: string)
      modifies this
      ensures objectives == KrToggled(old(objectives), oId, krId)
    {
      var i := FindObjective(objectives, oId);
      if i.None? || objectives[i.value].keyResults.None? {
        return;
      }
      var krs := objectives[i.value].keyResults.value;
      var j := FindKr(krs, krId);
      if j.Some? {
        krs := krs[j.value := krs[j.value].(done := !krs[j.value].done)];
      }
      objectives := objectives[i.value := objectives[i.value].(keyResults := Some(krs))];
    }

    method DeleteKr(oId: string, krId: string)
      modifies this
      ensures objectives == KrDeleted(old(objectives), oId, krId)
    {
      var i := FindObjective(objectives, oId);
      if i.None? || objectives[i.value].keyResults.None? {
        return;
      }
      var o := objectives[i.value];
      objectives := objectives[i.value := o.(keyResults := Some(Keep(o.keyResults.value, KrIdIsNot(krId))))];
    }

    /** `confirmed` is the user's answer to the confirmation dialog. */
    method DeleteObjective(id: string, confirmed: bool)
      modifies this
      ensures objectives == ObjectiveDeleted(old(objectives), id, confirmed)
    {
      if !confirmed {
        return;
      }
      objectives := Keep(objectives, ObjectiveIdIsNot(id));
    }
  }
}
