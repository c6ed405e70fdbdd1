/** Query strings as the pages handle them through `URLSearchParams`: an ordered
    list of name/value pairs in which a name may repeat. `get` reads the first
    pair with a name, `set` and `delete` follow the URLSearchParams interface of
    the WHATWG URL Standard (section 6.2). Percent-encoding is not modelled: a
    list of pairs stands for its serialisation. Also here: the decimal
    conversions between page numbers and their parameter strings. */
module QueryParams {
  import opened Common
  import ListEngine

  type ParamList = seq<(string, string)>

  /** `params.get(k)`: the value of the first pair named `k`. */
  function Lookup(ps: ParamList, k: string): Option<string> {
    if ps == [] then None
    else if ps[0].0 == k then Some(ps[0].1)
    else Lookup(ps[1..], k)
  }

  /** Some pair is named `k`. */
  predicate Has(ps: ParamList, k: string) {
    Lookup(ps, k).Some?
  }

  /** `params.delete(k)`: remove every pair named `k`, keep the others in order. */
  function DeleteParam(ps: ParamList, k: string): (r: ParamList)
    ensures forall i :: 0 <= i < |r| ==> r[i].0 != k
    ensures |r| <= |ps|
  {
    if ps == [] then []
    else (if ps[0].0 == k then [] else [ps[0]]) + DeleteParam(ps[1..], k)
  }

  /** `params.set(k, v)`: the first pair named `k` takes the value `v` and the
      other pairs named `k` are removed; with no pair named `k`, `(k, v)` is appended. */
  function SetParam(ps: ParamList, k: string, v: string): ParamList {
    if Has(ps, k) then ReplaceFirst(ps, k, v) else ps + [(k, v)]
  }

  function ReplaceFirst(ps: ParamList, k: string, v: string): ParamList
    requires Has(ps, k)
  {
    if ps[0].0 == k then [(k, v)] + DeleteParam(ps[1..], k)
    else [ps[0]] + ReplaceFirst(ps[1..], k, v)
  }

  /** After `delete(k)` no pair is named `k` and every other name reads as before. */
  lemma {:induction false} LookupDelete(ps: ParamList, k: string, j: string)
    ensures Lookup(DeleteParam(ps, k), j) == if j == k then None else Lookup(ps, j)
  {
    if ps != [] {
      LookupDelete(ps[1..], k, j);
      if ps[0].0 != k {
        var r := [ps[0]] + DeleteParam(ps[1..], k);
        assert r[1..] == DeleteParam(ps[1..], k);
      } else {
        assert DeleteParam(ps, k) == DeleteParam(ps[1..], k);
      }
    }
  }

  lemma {:induction false} LookupAppend(ps: ParamList, k: string, v: string, j: string)
    ensures Lookup(ps + [(k, v)], j) == if Has(ps, j) then Lookup(ps, j) else if j == k then Some(v) else None
  {
    if ps == [] {
      assert ps + [(k, v)] == [(k, v)];
    } else {
      assert (ps + [(k, v)])[1..] == ps[1..] + [(k, v)];
      LookupAppend(ps[1..], k, v, j);
    }
  }

  lemma {:induction false} LookupReplaceFirst(ps: ParamList, k: string, v: string, j: string)
    requires Has(ps, k)
    ensures Lookup(ReplaceFirst(ps, k, v), j) == if j == k then Some(v) else Lookup(ps, j)
  {
    if ps[0].0 == k {
      var r := [(k, v)] + DeleteParam(ps[1..], k);
      assert r[1..] == DeleteParam(ps[1..], k);
      LookupDelete(ps[1..], k, j);
    } else {
      var r := [ps[0]] + ReplaceFirst(ps[1..], k, v);
      assert r[1..] == ReplaceFirst(ps[1..], k, v);
      LookupReplaceFirst(ps[1..], k, v, j);
    }
  }

  /** After `set(k, v)` the name `k` reads `v` and every other name reads as before. */
  lemma LookupSet(ps: ParamList, k: string, v: string, j: string)
    ensures Lookup(SetParam(ps, k, v), j) == if j == k then Some(v) else Lookup(ps, j)
  {
    if Has(ps, k) {
      LookupReplaceFirst(ps, k, v, j);
    } else {
      LookupAppend(ps, k, v, j);
    }
  }

  lemma {:induction false} DeleteTwice(ps: ParamList, k: string)
    ensures DeleteParam(DeleteParam(ps, k), k) == DeleteParam(ps, k)
  {
    if ps != [] {
      DeleteTwice(ps[1..], k);
      if ps[0].0 != k {
        var r := [ps[0]] + DeleteParam(ps[1..], k);
        assert r[1..] == DeleteParam(ps[1..], k);
      } else {
        assert DeleteParam(ps, k) == DeleteParam(ps[1..], k);
      }
    }
  }

  lemma {:induction false} DeleteAppendSame(ps: ParamList, k: string, v: string)
    ensures DeleteParam(ps + [(k, v)], k) == DeleteParam(ps, k)
  {
    if ps == [] {
      assert [(k, v)][1..] == [];
    } else {
      assert (ps + [(k, v)])[1..] == ps[1..] + [(k, v)];
      DeleteAppendSame(ps[1..], k, v);
    }
  }

  lemma {:induction false} DeleteReplaceFirst(ps: ParamList, k: string, v: string)
    requires Has(ps, k)
    ensures DeleteParam(ReplaceFirst(ps, k, v), k) == DeleteParam(ps, k)
  {
    if ps[0].0 == k {
      var r := [(k, v)] + DeleteParam(ps[1..], k);
      assert r[1..] == DeleteParam(ps[1..], k);
      DeleteTwice(ps[1..], k);
    } else {
      var r := [ps[0]] + ReplaceFirst(ps[1..], k, v);
      assert r[1..] == ReplaceFirst(ps[1..], k, v);
      DeleteReplaceFirst(ps[1..], k, v);
    }
  }

  /** `set(k, v)` touches no pair with another name: with the pairs named `k`
      taken out, the list is the same pair for pair and in the same order. */
  lemma SetLeavesOthers(ps: ParamList, k: string, v: string)
    ensures DeleteParam(SetParam(ps, k, v), k) == DeleteParam(ps, k)
  {
    if Has(ps, k) {
      DeleteReplaceFirst(ps, k, v);
    } else {
      DeleteAppendSame(ps, k, v);
    }
  }

  /** The pairs whose name is not in `names`, in their order: the part of a
      query string that operations on those names must leave alone. */
  function Without(ps: ParamList, names: set<string>): (r: ParamList)
    ensures forall i :: 0 <= i < |r| ==> r[i].0 !in names
  {
    if ps == [] then []
    else (if ps[0].0 in names then [] else [ps[0]]) + Without(ps[1..], names)
  }

  /** `delete(k)` is the order-keeping filter that drops exactly the pairs named `k`. */
  lemma {:induction false} DeleteParamIsFilter(ps: ParamList, k: string)
    ensures DeleteParam(ps, k) == ListEngine.Filter(ps, (p: (string, string)) => p.0 != k)
    ensures ListEngine.IsSubsequence(DeleteParam(ps, k), ps)
  {
    if ps != [] {
      DeleteParamIsFilter(ps[1..], k);
    }
    ListEngine.FilterIsSubsequence(ps, (p: (string, string)) => p.0 != k);
  }

  /** `Without` is the order-keeping filter that drops exactly the pairs named in `names`. */
  lemma {:induction false} WithoutIsFilter(ps: ParamList, names: set<string>)
    ensures Without(ps, names) == ListEngine.Filter(ps, (p: (string, string)) => p.0 !in names)
    ensures ListEngine.IsSubsequence(Without(ps, names), ps)
  {
    if ps != [] {
      WithoutIsFilter(ps[1..], names);
    }
    ListEngine.FilterIsSubsequence(ps, (p: (string, string)) => p.0 !in names);
  }

  lemma {:induction false} LookupWithout(ps: ParamList, names: set<string>, j: string)
    ensures Lookup(Without(ps, names), j) == if j in names then None else Lookup(ps, j)
  {
    if ps != [] {
      LookupWithout(ps[1..], names, j);
      if ps[0].0 !in names {
        var r := [ps[0]] + Without(ps[1..], names);
        assert r[1..] == Without(ps[1..], names);
      } else {
        assert Without(ps, names) == Without(ps[1..], names);
      }
    }
  }

  /** Deleting one more name is taking one more name out. */
  lemma {:induction false} DeleteWithout(ps: ParamList, names: set<string>, k: string)
    ensures DeleteParam(Without(ps, names), k) == Without(ps, names + {k})
  {
    if ps != [] {
      DeleteWithout(ps[1..], names, k);
      if ps[0].0 !in names {
        var r := [ps[0]] + Without(ps[1..], names);
        assert r[1..] == Without(ps[1..], names);
      } else {
        assert Without(ps, names) == Without(ps[1..], names);
      }
    }
  }

  lemma {:induction false} WithoutDelete(ps: ParamList, names: set<string>, k: string)
    requires k in names
    ensures Without(DeleteParam(ps, k), names) == Without(ps, names)
  {
    if ps != [] {
      WithoutDelete(ps[1..], names, k);
      if ps[0].0 != k {
        var r := [ps[0]] + DeleteParam(ps[1..], k);
        assert r[1..] == DeleteParam(ps[1..], k);
      } else {
        assert DeleteParam(ps, k) == DeleteParam(ps[1..], k);
      }
    }
  }

  lemma {:induction false} WithoutAppend(ps: ParamList, names: set<string>, k: string, v: string)
    requires k in names
    ensures Without(ps + [(k, v)], names) == Without(ps, names)
  {
    if ps == [] {
      assert [(k, v)][1..] == [];
    } else {
      assert (ps + [(k, v)])[1..] == ps[1..] + [(k, v)];
      WithoutAppend(ps[1..], names, k, v);
    }
  }

  lemma {:induction false} WithoutReplaceFirst(ps: ParamList, names: set<string>, k: string, v: string)
    requires k in names && Has(ps, k)
    ensures Without(ReplaceFirst(ps, k, v), names) == Without(ps, names)
  {
    if ps[0].0 == k {
      var r := [(k, v)] + DeleteParam(ps[1..], k);
      assert r[1..] == DeleteParam(ps[1..], k);
      WithoutDelete(ps[1..], names, k);
    } else {
      var r := [ps[0]] + ReplaceFirst(ps[1..], k, v);
      assert r[1..] == ReplaceFirst(ps[1..], k, v);
      WithoutReplaceFirst(ps[1..], names, k, v);
    }
  }

  /** `set(k, v)` leaves every pair with a name outside `names` where it was, when `k` is in `names`. */
  lemma WithoutSet(ps: ParamList, names: set<string>, k: string, v: string)
    requires k in names
    ensures Without(SetParam(ps, k, v), names) == Without(ps, names)
  {
    if Has(ps, k) {
      WithoutReplaceFirst(ps, names, k, v);
    } else {
      WithoutAppend(ps, names, k, v);
    }
  }

  /** A mutable `URLSearchParams` object. */
  class SearchParams {
    var pairs: ParamList

    /** `new URLSearchParams(init)`. */
    constructor (init: ParamList)
      ensures pairs == init
    {
      pairs := init;
    }

    method Set(k: string, v: string)
      modifies this
      ensures pairs == SetParam(old(pairs), k, v)
    {
      pairs := SetParam(pairs, k, v);
    }

    method Delete(k: string)
      modifies this
      ensures pairs == DeleteParam(old(pairs), k)
    {
      pairs := DeleteParam(pairs, k);
    }
  }

  // Decimal page numbers: `page.toString()` and `parseInt(s, 10)`.

  predicate IsDigit(c: char) { '0' <= c <= '9' }

  predicate AllDigits(s: string) { forall i :: 0 <= i < |s| ==> IsDigit(s[i]) }

  function DigitChar(d: nat): char
    requires d < 10
  {
    ('0' as int + d) as char
  }

  /** `n.toString()` for a natural number. */
  function NatToString(n: nat): (s: string)
    ensures |s| >= 1 && AllDigits(s)
  {
    if n < 10 then [DigitChar(n)] else NatToString(n / 10) + [DigitChar(n % 10)]
  }

  /** The number a string of decimal digits denotes. */
  function DigitsValue(s: string): nat
    requires AllDigits(s)
  {
    if s == [] then 0 else DigitsValue(s[..|s| - 1]) * 10 + (s[|s| - 1] as int - '0' as int)
  }

  /** The longest prefix of decimal digits. */
  function LeadingDigits(s: string): (r: string)
    ensures IsPrefixOf(r, s) && AllDigits(r)
    ensures |r| < |s| ==> !IsDigit(s[|r|])
  {
    if s != [] && IsDigit(s[0]) then [s[0]] + LeadingDigits(s[1..]) else []
  }

  predicate IsPrefixOf(p: string, s: string) { |p| <= |s| && s[..|p|] == p }

  /** `parseInt(s, 10)` for a string without leading white space or sign:
      the value of its leading digits, `None` (NaN) when it starts with no digit. */
  function ParseInt(s: string): Option<nat> {
    var d := LeadingDigits(s);
    if d == [] then None else Some(DigitsValue(d))
  }

  lemma {:induction false} LeadingDigitsOfDigits(s: string)
    requires AllDigits(s)
    ensures LeadingDigits(s) == s
  {
    if s != [] {
      LeadingDigitsOfDigits(s[1..]);
      assert s == [s[0]] + s[1..];
    }
  }

  lemma {:induction false} ValueOfNatToString(n: nat)
    ensures DigitsValue(NatToString(n)) == n
  {
    var s := NatToString(n);
    if n >= 10 {
      ValueOfNatToString(n / 10);
      assert s[..|s| - 1] == NatToString(n / 10);
    }
  }

  /** A page number written with `toString` reads back with `parseInt` as the same number. */
  lemma ParseIntOfNatToString(n: nat)
    ensures ParseInt(NatToString(n)) == Some(n)
  {
    LeadingDigitsOfDigits(NatToString(n));
    ValueOfNatToString(n);
  }
}
