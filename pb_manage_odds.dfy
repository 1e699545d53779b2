/** The `pb-manage-odds` element: the panel on the start page listing the
    ODD files on the server. It marks one ODD as current, deletes an ODD
    after a confirmation, and reloads the list from the server. */
module OddManagement {
  import opened Wrappers

  /** One entry of the list as the server sends it. The `label` and
      `description` the server also sends are only rendered. */
  datatype Odd = Odd(name: string, path: string, current: bool)

  /** Request parameters; all values the panel sends are strings */
  type Params = map<string, string>

  /** What the panel does that others can observe */
  datatype Effect =
    | StartUpdate
    | EndUpdate
    /** a request of the AJAX element, with its `params` (`undefined` when None) */
    | Request(params: Option<Params>)
    /** a `pb-load` event, sent to the elements that show the selected ODD */
    | LoadOdd(detail: Params)
    | DeleteDialogOpened

  /** Whether an entry other than the selected one is current */
  predicate OtherCurrent(s: seq<Odd>, selected: nat) {
    exists j :: 0 <= j < |s| && j != selected && s[j].current
  }

  /** The list after `selected` has been chosen: no other entry is current, and
      the selected entry is current exactly when some entry was current before.
      Nothing but the `current` flags changes. */
  function Selected(s: seq<Odd>, selected: nat): (r: seq<Odd>)
    requires selected < |s|
    ensures |r| == |s|
    ensures forall i :: 0 <= i < |s| ==> r[i].name == s[i].name && r[i].path == s[i].path
    ensures forall i :: 0 <= i < |s| && i != selected ==> !r[i].current
    ensures r[selected].current <==> exists j :: 0 <= j < |s| && s[j].current
  {
    seq(|s|, i requires 0 <= i < |s| =>
      if i == selected then s[i].(current := s[i].current || OtherCurrent(s, selected))
      else s[i].(current := false))
  }

  /** When no other entry is current, choosing one changes nothing */
  lemma SelectedWithoutOtherCurrent(s: seq<Odd>, selected: nat)
    requires selected < |s|
    requires !OtherCurrent(s, selected)
    ensures Selected(s, selected) == s
  {
    var r := Selected(s, selected);
    forall i | 0 <= i < |s|
      ensures r[i] == s[i]
    {
      if i != selected {
        assert !s[i].current;
      }
    }
  }

  /** When some entry is current, exactly the selected one is current afterwards */
  lemma SelectedSingleCurrent(s: seq<Odd>, selected: nat, i: nat)
    requires selected < |s| && i < |s|
    requires exists j :: 0 <= j < |s| && s[j].current
    ensures Selected(s, selected)[i].current <==> i == selected
  {
  }

  /** Choosing the same entry twice is the same as choosing it once */
  lemma SelectedIdempotent(s: seq<Odd>, selected: nat)
    requires selected < |s|
    ensures Selected(Selected(s, selected), selected) == Selected(s, selected)
  {
    var r := Selected(s, selected);
    if r[selected].current {
      assert exists j :: 0 <= j < |r| && r[j].current;
    } else {
      SelectedWithoutOtherCurrent(r, selected);
    }
  }

  /** The `pb-load` parameters that announce an ODD: its file name */
  function OddParams(odd: Odd): (p: Params)
    ensures p.Keys == {"odd"}
    ensures |p["odd"]| == |odd.name| + 4
    ensures p["odd"][..|odd.name|] == odd.name && p["odd"][|odd.name|..] == ".odd"
  {
    map["odd" := odd.name + ".odd"]
  }

  class PbManageOdds {
    var odds: array<Odd>
    /** The ODD marked for deletion (`_current`); None while nothing is marked */
    var pending: Option<string>
    var effects: seq<Effect>

    constructor ()
      ensures odds.Length == 0 && pending == None && effects == []
    {
      odds := new Odd[0];
      pending := None;
      effects := [];
    }

    /** `_refresh`: announces the update, then requests the list with `params` */
    method Refresh(params: Option<Params>)
      modifies this`effects
      ensures effects == old(effects) + [StartUpdate, Request(params)]
    {
      effects := effects + [StartUpdate];
      effects := effects + [Request(params)];
    }

    /** `_update`: announces the end of the update and takes the response as the new list */
    method Update(response: seq<Odd>)
      modifies this`odds, this`effects
      ensures fresh(odds) && odds[..] == response
      ensures effects == old(effects) + [EndUpdate]
    {
      effects := effects + [EndUpdate];
      odds := new Odd[|response|](i requires 0 <= i < |response| => response[i]);
    }

    /** `_selectODD`: walks the list once; each other entry found current is
        cleared and the selected entry is made current. Then a `pb-load` event
        announces the selected ODD. */
    method SelectOdd(selected: nat)
      requires selected < odds.Length
      modifies odds, this`effects
      ensures odds[..] == Selected(old(odds[..]), selected)
      ensures effects == old(effects) + [LoadOdd(OddParams(odds[selected]))]
    {
      ghost var before := odds[..];
      var index := 0;
      while index < odds.Length
        invariant 0 <= index <= odds.Length
        invariant effects == old(effects)
        invariant forall i :: 0 <= i < odds.Length && i != selected ==>
          odds[i] == if i < index then before[i].(current := false) else before[i]
        invariant odds[selected] == before[selected].(current := before[selected].current
          || exists j :: 0 <= j < index && j != selected && before[j].current)
      {
        if index != selected && odds[index].current {
          odds[index] := odds[index].(current := false);
          odds[selected] := odds[selected].(current := true);
        }
        index := index + 1;
      }
      assert odds[..] == Selected(before, selected);
      effects := effects + [LoadOdd(OddParams(odds[selected]))];
    }

    /** `_delete`: marks the ODD at `path` for deletion and asks for confirmation */
    method Delete(path: string)
      modifies this`pending, this`effects
      ensures pending == Some(path)
      ensures effects == old(effects) + [DeleteDialogOpened]
    {
      pending := Some(path);
      effects := effects + [DeleteDialogOpened];
    }

    /** `_confirmDelete`: with an ODD marked (a non-empty path), requests its
        deletion once and clears the mark; otherwise does nothing */
    method ConfirmDelete()
      modifies this`pending, this`effects
      ensures old(pending).Some? && old(pending).value != "" ==>
        && effects == old(effects) + [StartUpdate, Request(Some(map["delete" := old(pending).value]))]
        && pending == None
      ensures old(pending).None? || old(pending).value == "" ==>
        effects == old(effects) && pending == old(pending)
    {
      if pending.Some? && pending.value != "" {
        Refresh(Some(map["delete" := pending.value]));
        pending := None;
      }
    }
  }
}
