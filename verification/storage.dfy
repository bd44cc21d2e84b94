/** The settings record and the tracked-account list as kept in local storage.
    A storage slot holds `None` until something is saved into it; serialising
    to JSON and parsing back is taken to be lossless. */
module Storage {
  import opened Options
  import opened Types

  /** Defaults used while nothing has been saved: an empty cookie, a five-minute
      refresh interval, notifications on, and every polling field `undefined`. */
  const DefaultSettings: Settings := Settings("", 5, true, None, None, None, None, None, None)

  function GetSettings(saved: Option<Settings>): (s: Settings)
    ensures saved.None? ==> s == DefaultSettings && s.cookie == ""
    ensures saved.Some? ==> s == saved.value
  {
    saved.GetOr(DefaultSettings)
  }

  function SaveSettings(s: Settings): (slot: Option<Settings>)
    ensures slot.Some?
  {
    Some(s)
  }

  /** Reading back what was saved yields the saved settings. */
  lemma SaveThenGetSettings(s: Settings)
    ensures GetSettings(SaveSettings(s)) == s
  {
  }

  function GetUPs(saved: Option<seq<UP>>): (ups: seq<UP>)
    ensures saved.None? ==> ups == []
  {
    saved.GetOr([])
  }

  predicate HasMid(ups: seq<UP>, mid: string) {
    exists i :: 0 <= i < |ups| && ups[i].mid == mid
  }

  /** No two tracked accounts share a mid. */
  predicate UniqueMids(ups: seq<UP>) {
    forall i, j :: 0 <= i < j < |ups| ==> ups[i].mid != ups[j].mid
  }

  /** The first entry with the given mid (`ups.find(u => u.mid === mid)`). */
  function FindByMid(ups: seq<UP>, mid: string): (r: Option<UP>)
    ensures r.None? <==> !HasMid(ups, mid)
    ensures r.Some? ==> r.value in ups && r.value.mid == mid
  {
    if |ups| == 0 then None
    else if ups[0].mid == mid then Some(ups[0])
    else
      var r := FindByMid(ups[1..], mid);
      assert HasMid(ups, mid) ==> HasMid(ups[1..], mid) by {
        if HasMid(ups, mid) {
          var i :| 0 <= i < |ups| && ups[i].mid == mid;
          assert ups[1..][i - 1].mid == mid;
        }
      }
      r
  }

  /** Appends `up` unless an entry with its mid is already tracked. */
  function AddUP(ups: seq<UP>, up: UP): (r: seq<UP>)
    ensures HasMid(ups, up.mid) ==> r == ups
    ensures !HasMid(ups, up.mid) ==> r == ups + [up]
    ensures HasMid(r, up.mid)
    ensures UniqueMids(ups) ==> UniqueMids(r)
  {
    if FindByMid(ups, up.mid).None? then
      assert (ups + [up])[|ups|].mid == up.mid;
      ups + [up]
    else ups
  }

  /** Keeps the entries whose mid differs (`ups.filter(u => u.mid !== mid)`). */
  function RemoveUP(ups: seq<UP>, mid: string): (r: seq<UP>)
    ensures forall u | u in r :: u in ups && u.mid != mid
    ensures |r| <= |ups|
  {
    if |ups| == 0 then []
    else
      assert forall u | u in ups[1..] :: u in ups;
      if ups[0].mid == mid then RemoveUP(ups[1..], mid)
      else [ups[0]] + RemoveUP(ups[1..], mid)
  }

  /** Every entry under another mid survives the removal. */
  lemma {:induction false} RemoveUPKeepsOthers(ups: seq<UP>, mid: string)
    ensures forall u | u in ups && u.mid != mid :: u in RemoveUP(ups, mid)
    decreases |ups|
  {
    if |ups| > 0 {
      RemoveUPKeepsOthers(ups[1..], mid);
      assert forall u | u in ups :: u == ups[0] || u in ups[1..];
    }
  }

  lemma RemoveUPDropsMid(ups: seq<UP>, mid: string)
    ensures !HasMid(RemoveUP(ups, mid), mid)
  {
  }

  /** Removing keeps the tracked mids unique. */
  lemma {:induction false} RemoveUPKeepsUnique(ups: seq<UP>, mid: string)
    requires UniqueMids(ups)
    ensures UniqueMids(RemoveUP(ups, mid))
    decreases |ups|
  {
    if |ups| > 0 {
      RemoveUPKeepsUnique(ups[1..], mid);
    }
  }

  /** Removing distributes over concatenation, so the survivors keep their order. */
  lemma RemoveUPCons(x: UP, rest: seq<UP>, mid: string)
    ensures RemoveUP([x] + rest, mid) == (if x.mid == mid then [] else [x]) + RemoveUP(rest, mid)
  {
    assert ([x] + rest)[0] == x && ([x] + rest)[1..] == rest;
  }

  lemma {:induction false} RemoveUPKeepsOrder(a: seq<UP>, b: seq<UP>, mid: string)
    ensures RemoveUP(a + b, mid) == RemoveUP(a, mid) + RemoveUP(b, mid)
    decreases |a|
  {
    if |a| == 0 {
      assert a + b == b;
    } else {
      var x, rest := a[0], a[1..];
      assert a + b == [x] + (rest + b);
      assert a == [x] + rest;
      RemoveUPCons(x, rest + b, mid);
      RemoveUPCons(x, rest, mid);
      RemoveUPKeepsOrder(rest, b, mid);
      if x.mid != mid {
        SeqAssoc([x], RemoveUP(rest, mid), RemoveUP(b, mid));
      }
    }
  }

  lemma SeqAssoc<T>(p: seq<T>, q: seq<T>, r: seq<T>)
    ensures p + (q + r) == (p + q) + r
  {
  }

  /** A list without the mid is left exactly as it was. */
  lemma {:induction false} RemoveUPAbsent(ups: seq<UP>, mid: string)
    requires !HasMid(ups, mid)
    ensures RemoveUP(ups, mid) == ups
    decreases |ups|
  {
    if |ups| > 0 {
      assert ups[0].mid != mid;
      RemoveUPAbsent(ups[1..], mid);
      assert RemoveUP(ups, mid) == [ups[0]] + ups[1..];
      assert ups == [ups[0]] + ups[1..];
    }
  }

  lemma AddUPIdempotent(ups: seq<UP>, up: UP)
    ensures AddUP(AddUP(ups, up), up) == AddUP(ups, up)
  {
  }

  lemma RemoveUPIdempotent(ups: seq<UP>, mid: string)
    ensures RemoveUP(RemoveUP(ups, mid), mid) == RemoveUP(ups, mid)
  {
    RemoveUPAbsent(RemoveUP(ups, mid), mid);
  }

  /** Adding an account that was not tracked and then removing it restores the list. */
  lemma AddThenRemoveUP(ups: seq<UP>, up: UP)
    requires !HasMid(ups, up.mid)
    ensures RemoveUP(AddUP(ups, up), up.mid) == ups
  {
    RemoveUPKeepsOrder(ups, [up], up.mid);
    RemoveUPAbsent(ups, up.mid);
    assert RemoveUP([up], up.mid) == [];
  }
}
