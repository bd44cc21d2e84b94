/** WBI request signing: the mixin key derived from the two nav-image keys,
    parameter sanitising and ordering, and the `w_rid` digest. The digest
    function and the query-string encoder are foreign code and are passed in. */
module Wbi {
  import opened Options
  import opened Strings

  /** The fixed reordering applied to `img_key + sub_key`, in rows of eight. */
  const MixinKeyEncTab: seq<nat> :=
    [46, 47, 18, 2, 53, 8, 23, 32] +
    [15, 50, 10, 31, 58, 3, 45, 35] +
    [27, 43, 5, 49, 33, 9, 42, 19] +
    [29, 28, 14, 39, 12, 38, 41, 13] +
    [37, 48, 7, 16, 24, 55, 40, 61] +
    [26, 17, 0, 1, 60, 51, 30, 4] +
    [22, 25, 54, 21, 56, 59, 6, 63] +
    [57, 62, 11, 36, 20, 34, 44, 52]

  /** The inverse of `MixinKeyEncTab`: the position of each value 0..63 in it. */
  const MixinKeyDecTab: seq<nat> :=
    [42, 43, 3, 13, 47, 18, 54, 34] +
    [5, 21, 10, 58, 28, 31, 26, 8] +
    [35, 41, 2, 23, 60, 51, 48, 6] +
    [36, 49, 40, 16, 25, 24, 46, 11] +
    [7, 20, 61, 15, 59, 32, 29, 27] +
    [38, 30, 22, 17, 62, 14, 0, 1] +
    [33, 19, 9, 45, 63, 4, 50, 37] +
    [52, 56, 12, 53, 44, 39, 57, 55]

  /** `t` lists each of 0..|t|-1 exactly once. */
  predicate IsPermutation(t: seq<nat>) {
    && (forall i :: 0 <= i < |t| ==> t[i] < |t|)
    && (forall i, j :: 0 <= i < j < |t| ==> t[i] != t[j])
  }

  /* The two tables are checked against each other a quarter at a time:
     one query over all 64 indices is needlessly expensive for the solver. */
  lemma EncThenDecQ0()
    ensures forall i :: 0 <= i < 16 ==> MixinKeyEncTab[i] < 64 && MixinKeyDecTab[MixinKeyEncTab[i]] == i
  {
  }

  lemma EncThenDecQ1()
    ensures forall i :: 16 <= i < 32 ==> MixinKeyEncTab[i] < 64 && MixinKeyDecTab[MixinKeyEncTab[i]] == i
  {
  }

  lemma EncThenDecQ2()
    ensures forall i :: 32 <= i < 48 ==> MixinKeyEncTab[i] < 64 && MixinKeyDecTab[MixinKeyEncTab[i]] == i
  {
  }

  lemma EncThenDecQ3()
    ensures forall i :: 48 <= i < 64 ==> MixinKeyEncTab[i] < 64 && MixinKeyDecTab[MixinKeyEncTab[i]] == i
  {
  }

  lemma DecThenEncQ0()
    ensures forall v :: 0 <= v < 16 ==> MixinKeyDecTab[v] < 64 && MixinKeyEncTab[MixinKeyDecTab[v]] == v
  {
  }

  lemma DecThenEncQ1()
    ensures forall v :: 16 <= v < 32 ==> MixinKeyDecTab[v] < 64 && MixinKeyEncTab[MixinKeyDecTab[v]] == v
  {
  }

  lemma DecThenEncQ2()
    ensures forall v :: 32 <= v < 48 ==> MixinKeyDecTab[v] < 64 && MixinKeyEncTab[MixinKeyDecTab[v]] == v
  {
  }

  lemma DecThenEncQ3()
    ensures forall v :: 48 <= v < 64 ==> MixinKeyDecTab[v] < 64 && MixinKeyEncTab[MixinKeyDecTab[v]] == v
  {
  }

  /** Decoding undoes the mixin table. */
  lemma EncThenDec()
    ensures |MixinKeyEncTab| == 64
    ensures forall i :: 0 <= i < 64 ==> MixinKeyEncTab[i] < 64 && MixinKeyDecTab[MixinKeyEncTab[i]] == i
  {
    EncThenDecQ0(); EncThenDecQ1(); EncThenDecQ2(); EncThenDecQ3();
  }

  /** The mixin table undoes decoding, so every value 0..63 occurs in it. */
  lemma DecThenEnc()
    ensures |MixinKeyDecTab| == 64
    ensures forall v :: 0 <= v < 64 ==> MixinKeyDecTab[v] < 64 && MixinKeyEncTab[MixinKeyDecTab[v]] == v
  {
    DecThenEncQ0(); DecThenEncQ1(); DecThenEncQ2(); DecThenEncQ3();
  }

  /** Every entry of the mixin table indexes into a 64-character string. */
  lemma MixinKeyEncTabInRange()
    ensures |MixinKeyEncTab| == 64
    ensures forall i :: 0 <= i < 64 ==> MixinKeyEncTab[i] < 64
  {
    EncThenDec();
  }

  /** The mixin table is a permutation of 0..63. */
  lemma MixinKeyEncTabIsPermutation()
    ensures |MixinKeyEncTab| == 64
    ensures IsPermutation(MixinKeyEncTab)
    ensures forall v :: 0 <= v < 64 ==> v in MixinKeyEncTab
  {
    EncThenDec();
    DecThenEnc();
    var t, d := MixinKeyEncTab, MixinKeyDecTab;
    forall i, j | 0 <= i < j < 64
      ensures t[i] != t[j]
    {
      assert d[t[i]] == i && d[t[j]] == j;
    }
    forall v | 0 <= v < 64
      ensures v in t
    {
      assert t[d[v]] == v;
    }
  }

  /** `tab.map(n => orig[n]).join('')`: an index past the end of `orig` reads
      `undefined`, which `join` renders as nothing. */
  function PickChars(orig: string, tab: seq<nat>): (r: string)
    ensures |r| <= |tab|
    ensures forall c :: c in r ==> c in orig
    ensures (forall i :: 0 <= i < |tab| ==> tab[i] < |orig|) ==>
              |r| == |tab| && forall i :: 0 <= i < |tab| ==> r[i] == orig[tab[i]]
  {
    if |tab| == 0 then ""
    else (if tab[0] < |orig| then [orig[tab[0]]] else "") + PickChars(orig, tab[1..])
  }

  /** The first 32 characters picked by `tab`. */
  function TakeMixed(orig: string, tab: seq<nat>): (key: string)
    requires |tab| >= 32 && forall i :: 0 <= i < |tab| ==> tab[i] < |orig|
    ensures |key| == 32 && forall i :: 0 <= i < 32 ==> key[i] == orig[tab[i]]
  {
    PickChars(orig, tab)[..32]
  }

  /** The mixin key: the table-reordered characters of `orig`, cut to 32. */
  function GetMixinKey(orig: string): (key: string)
    ensures |key| <= 32
    ensures forall c :: c in key ==> c in orig
    ensures |orig| >= 64 ==>
              |key| == 32 && forall i :: 0 <= i < 32 ==> key[i] == orig[MixinKeyEncTab[i]]
  {
    MixinKeyEncTabInRange();
    var picked := PickChars(orig, MixinKeyEncTab);
    if |orig| >= 64 then TakeMixed(orig, MixinKeyEncTab)
    else if |picked| <= 32 then picked
    else
      assert forall c | c in picked[..32] :: c in picked;
      picked[..32]
  }

  /** The characters the signer deletes from every value. */
  predicate IsSpecial(c: char) {
    c == '!' || c == '\'' || c == '(' || c == ')' || c == '*'
  }

  predicate NoSpecial(s: string) {
    forall i :: 0 <= i < |s| ==> !IsSpecial(s[i])
  }

  /** `s.replace(/[!'()*]/g, '')`. */
  function Strip(s: string): (r: string)
    ensures NoSpecial(r)
    ensures forall c :: c in r <==> c in s && !IsSpecial(c)
    ensures |r| <= |s|
  {
    if |s| == 0 then ""
    else
      assert forall c :: c in s <==> c == s[0] || c in s[1..] by {
        assert s == [s[0]] + s[1..];
      }
      (if IsSpecial(s[0]) then "" else [s[0]]) + Strip(s[1..])
  }

  /** A string without special characters passes through unchanged. */
  lemma {:induction false} StripNoSpecial(s: string)
    requires NoSpecial(s)
    ensures Strip(s) == s
    decreases |s|
  {
    if |s| > 0 {
      StripNoSpecial(s[1..]);
      assert s == [s[0]] + s[1..];
    }
  }

  lemma StripIdempotent(s: string)
    ensures Strip(Strip(s)) == Strip(s)
  {
    StripNoSpecial(Strip(s));
  }

  /** Stripping works character by character, so the kept characters keep their order. */
  lemma {:induction false} StripConcat(a: string, b: string)
    ensures Strip(a + b) == Strip(a) + Strip(b)
    decreases |a|
  {
    if |a| > 0 {
      assert (a + b)[1..] == a[1..] + b;
      StripConcat(a[1..], b);
    } else {
      assert a + b == b;
    }
  }

  /** A request parameter: the source's `string | number`. */
  datatype ParamValue = Text(s: string) | Number(n: int)

  /** `value.toString()`. */
  function ToText(v: ParamValue): string {
    match v
    case Text(s) => s
    case Number(n) => IntToDecimal(n)
  }

  /** Numbers are never altered by sanitising. */
  lemma StripNumber(n: int)
    ensures Strip(ToText(Number(n))) == ToText(Number(n))
  {
    StripNoSpecial(IntToDecimal(n));
  }

  /** A JavaScript object as its own-key list in enumeration order. */
  type Params = seq<(string, ParamValue)>

  /** The keys of a key/value list, in order. */
  function Keys<V>(kv: seq<(string, V)>): (ks: seq<string>)
    ensures |ks| == |kv|
    ensures forall i :: 0 <= i < |kv| ==> ks[i] == kv[i].0
  {
    if |kv| == 0 then [] else [kv[0].0] + Keys(kv[1..])
  }

  predicate DistinctKeys<V>(kv: seq<(string, V)>) {
    forall i, j :: 0 <= i < j < |kv| ==> kv[i].0 != kv[j].0
  }

  /** Keys strictly ascending in `sort()` order. */
  predicate KeysAscending<V>(kv: seq<(string, V)>) {
    forall i, j :: 0 <= i < j < |kv| ==> StrLt(kv[i].0, kv[j].0)
  }

  /** Where key `k` sits, if anywhere. */
  function IndexOf<V>(kv: seq<(string, V)>, k: string): (r: Option<nat>)
    ensures r.None? <==> k !in Keys(kv)
    ensures r.Some? ==> r.value < |kv| && kv[r.value].0 == k
  {
    if |kv| == 0 then None
    else if kv[0].0 == k then Some(0)
    else
      match IndexOf(kv[1..], k)
      case None =>
        assert Keys(kv) == [kv[0].0] + Keys(kv[1..]);
        None
      case Some(i) => Some(i + 1)
  }

  /** Property assignment `obj[k] = v`: an existing key keeps its place and
      takes the new value, a new key goes to the end. This is the order of
      named (non-integer-like) keys; integer-like keys, which a JavaScript
      object enumerates first, are not modelled. */
  function Put<V>(kv: seq<(string, V)>, k: string, v: V): (r: seq<(string, V)>)
    requires DistinctKeys(kv)
    ensures DistinctKeys(r)
    ensures Keys(r) == if k in Keys(kv) then Keys(kv) else Keys(kv) + [k]
    ensures (k, v) in r
    ensures forall i :: 0 <= i < |kv| && kv[i].0 != k ==> kv[i] in r
    ensures forall i :: 0 <= i < |r| && r[i].0 != k ==> r[i] in kv
    ensures k !in Keys(kv) ==> r == kv + [(k, v)]
  {
    match IndexOf(kv, k)
    case Some(i) =>
      var r := kv[i := (k, v)];
      assert Keys(r) == Keys(kv);
      r
    case None =>
      var r := kv + [(k, v)];
      assert Keys(r) == Keys(kv) + [k];
      assert r[|kv|] == (k, v);
      r
  }

  lemma AscendingKeysAreDistinct<V>(kv: seq<(string, V)>)
    requires KeysAscending(kv)
    ensures DistinctKeys(kv)
  {
    forall i, j | 0 <= i < j < |kv| ensures kv[i].0 != kv[j].0 {
      if kv[i].0 == kv[j].0 {
        StrLtIrreflexive(kv[i].0);
      }
    }
  }

  /** One insertion step of the key sort: `p` goes before the first entry
      whose key is greater. */
  function InsertByKey(p: (string, ParamValue), s: Params): (r: Params)
    ensures multiset(r) == multiset(s) + multiset{p}
  {
    if |s| == 0 || StrLt(p.0, s[0].0) then [p] + s
    else
      assert s == [s[0]] + s[1..];
      [s[0]] + InsertByKey(p, s[1..])
  }

  lemma {:induction false} InsertByKeyAscending(p: (string, ParamValue), s: Params)
    requires KeysAscending(s)
    requires p.0 !in Keys(s)
    ensures KeysAscending(InsertByKey(p, s))
    decreases |s|
  {
    if |s| == 0 {
    } else if StrLt(p.0, s[0].0) {
      forall j | 0 < j < |s| ensures StrLt(p.0, s[j].0) {
        StrLtTransitive(p.0, s[0].0, s[j].0);
      }
    } else {
      assert Keys(s)[0] == s[0].0;
      StrLtTotal(p.0, s[0].0);
      InsertByKeyAscending(p, s[1..]);
      var rest := InsertByKey(p, s[1..]);
      forall j | 0 <= j < |rest| ensures StrLt(s[0].0, rest[j].0) {
        assert rest[j] in multiset(rest);
        if rest[j] != p {
          assert rest[j] in multiset(s[1..]);
          var m :| 0 <= m < |s[1..]| && s[1..][m] == rest[j];
          assert s[m + 1] == rest[j];
        }
      }
    }
  }

  /** An entry after the first of a distinct-key list has a different key. */
  lemma TailKeyDiffers(kv: Params, q: (string, ParamValue))
    requires DistinctKeys(kv) && |kv| > 0
    requires q in multiset(kv[1..])
    ensures q.0 != kv[0].0
  {
    var m :| 0 <= m < |kv[1..]| && kv[1..][m] == q;
    assert kv[m + 1] == q;
  }

  /** `Object.keys(obj).sort()` applied to the whole key/value list. */
  function SortByKey(kv: Params): (r: Params)
    ensures multiset(r) == multiset(kv)
    ensures |r| == |kv|
  {
    if |kv| == 0 then []
    else
      assert kv == [kv[0]] + kv[1..];
      var r := InsertByKey(kv[0], SortByKey(kv[1..]));
      assert |r| == |multiset(r)|;
      r
  }

  lemma {:induction false} SortByKeyAscending(kv: Params)
    requires DistinctKeys(kv)
    ensures KeysAscending(SortByKey(kv))
    decreases |kv|
  {
    if |kv| > 0 {
      SortByKeyAscending(kv[1..]);
      var rest := SortByKey(kv[1..]);
      if kv[0].0 in Keys(rest) {
        var j :| 0 <= j < |rest| && Keys(rest)[j] == kv[0].0;
        assert rest[j] in multiset(rest);
        TailKeyDiffers(kv, rest[j]);
      }
      InsertByKeyAscending(kv[0], rest);
    }
  }

  /** Every value stringified and stripped, keys and order kept. */
  function StripValues(kv: Params): (r: seq<(string, string)>)
    ensures |r| == |kv|
    ensures forall i :: 0 <= i < |kv| ==> r[i] == (kv[i].0, Strip(ToText(kv[i].1)))
  {
    seq(|kv|, i requires 0 <= i < |kv| => (kv[i].0, Strip(ToText(kv[i].1))))
  }

  /** `Math.round(Date.now() / 1000)` for a non-negative millisecond clock. */
  function WtsOf(nowMs: nat): nat {
    (nowMs + 500) / 1000
  }

  /** The parameter object with a fresh `wts`, before sorting (`curr_params`). */
  function WithTimestamp(params: Params, nowMs: nat): (curr: Params)
    requires DistinctKeys(params)
    ensures DistinctKeys(curr)
  {
    Put(params, "wts", Number(WtsOf(nowMs)))
  }

  /** The signed parameter object before `w_rid` is added: the caller's
      parameters plus a fresh `wts`, ordered by key, every value sanitised. */
  function SortedParams(params: Params, nowMs: nat): (sp: seq<(string, string)>)
    requires DistinctKeys(params)
    ensures KeysAscending(sp)
    ensures forall i :: 0 <= i < |sp| ==> NoSpecial(sp[i].1)
  {
    var sorted := SortByKey(WithTimestamp(params, nowMs));
    SortByKeyAscending(WithTimestamp(params, nowMs));
    StripValues(sorted)
  }

  /** The signed parameters hold exactly the caller's keys plus `wts`. */
  lemma SortedParamsKeys(params: Params, nowMs: nat)
    requires DistinctKeys(params)
    ensures forall k :: k in Keys(SortedParams(params, nowMs)) <==> k in Keys(params) || k == "wts"
  {
    var curr := WithTimestamp(params, nowMs);
    var sorted := SortByKey(curr);
    SortKeepsEntries(curr, sorted);
    assert Keys(SortedParams(params, nowMs)) == Keys(sorted);
  }

  /** A caller-supplied `wts` is overridden by the clock's value. */
  lemma SortedParamsTimestamp(params: Params, nowMs: nat)
    requires DistinctKeys(params)
    ensures ("wts", IntToDecimal(WtsOf(nowMs))) in SortedParams(params, nowMs)
    ensures forall i :: 0 <= i < |SortedParams(params, nowMs)| && SortedParams(params, nowMs)[i].0 == "wts" ==>
              SortedParams(params, nowMs)[i].1 == IntToDecimal(WtsOf(nowMs))
  {
    var curr := WithTimestamp(params, nowMs);
    var sorted := SortByKey(curr);
    SortKeepsEntries(curr, sorted);
    StripNumber(WtsOf(nowMs));
    var sp := SortedParams(params, nowMs);
    SortByKeyAscending(curr);
    AscendingKeysAreDistinct(sp);
    forall i | 0 <= i < |sp| && sp[i].0 == "wts"
      ensures sp[i].1 == IntToDecimal(WtsOf(nowMs))
    {
      var j :| 0 <= j < |sp| && sp[j] == ("wts", IntToDecimal(WtsOf(nowMs)));
      assert i == j;
    }
  }

  /** Every other caller value arrives stringified and stripped. */
  lemma SortedParamsValues(params: Params, nowMs: nat)
    requires DistinctKeys(params)
    ensures forall i :: 0 <= i < |params| && params[i].0 != "wts" ==>
              (params[i].0, Strip(ToText(params[i].1))) in SortedParams(params, nowMs)
  {
    var curr := WithTimestamp(params, nowMs);
    SortKeepsEntries(curr, SortByKey(curr));
    forall i | 0 <= i < |params| && params[i].0 != "wts"
      ensures (params[i].0, Strip(ToText(params[i].1))) in SortedParams(params, nowMs)
    {
      assert params[i] in curr;
    }
  }

  /** Two lists holding the same entries have the same keys, and stripping
      the second keeps every entry of the first. */
  lemma SortKeepsEntries(curr: Params, sorted: Params)
    requires multiset(sorted) == multiset(curr)
    ensures forall k :: k in Keys(sorted) <==> k in Keys(curr)
    ensures forall q :: q in curr ==> (q.0, Strip(ToText(q.1))) in StripValues(sorted)
  {
    forall k ensures k in Keys(sorted) <==> k in Keys(curr) {
      if k in Keys(sorted) {
        var j :| 0 <= j < |sorted| && Keys(sorted)[j] == k;
        assert sorted[j] in multiset(curr);
        var m :| 0 <= m < |curr| && curr[m] == sorted[j];
        assert Keys(curr)[m] == k;
      }
      if k in Keys(curr) {
        var m :| 0 <= m < |curr| && Keys(curr)[m] == k;
        assert curr[m] in multiset(sorted);
        var j :| 0 <= j < |sorted| && sorted[j] == curr[m];
        assert Keys(sorted)[j] == k;
      }
    }
    var sp := StripValues(sorted);
    forall q | q in curr ensures (q.0, Strip(ToText(q.1))) in sp {
      assert q in multiset(sorted);
      var j :| 0 <= j < |sorted| && sorted[j] == q;
      assert sp[j] == (q.0, Strip(ToText(q.1)));
    }
  }

  /** `encWbi`: the signed parameters followed by `w_rid`, the digest of their
      query string with the mixin key appended. A caller key named `w_rid`
      keeps its sorted place and takes the digest. */
  function EncWbi(params: Params, imgKey: string, subKey: string, nowMs: nat,
                  encode: seq<(string, string)> -> string, md5: string -> string): (out: seq<(string, string)>)
    requires DistinctKeys(params)
    ensures "w_rid" !in Keys(params) ==>
              && |out| > 0
              && out[..|out| - 1] == SortedParams(params, nowMs)
              && out[|out| - 1] == ("w_rid", md5(encode(out[..|out| - 1]) + GetMixinKey(imgKey + subKey)))
    ensures "w_rid" in Keys(params) ==> Keys(out) == Keys(SortedParams(params, nowMs))
  {
    var sp := SortedParams(params, nowMs);
    AscendingKeysAreDistinct(sp);
    SortedParamsKeys(params, nowMs);
    Put(sp, "w_rid", md5(encode(sp) + GetMixinKey(imgKey + subKey)))
  }
}
