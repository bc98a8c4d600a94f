/** Python value semantics the handler relies on: the exceptions it raises,
    insertion-ordered dicts, and substring membership (`pat in s`). */
module Python {

  /** The exceptions that reach a `except Exception` clause; a 500 response
      reports `str(e)` of one of these. */
  datatype Fault =
    | KeyError(key: string)        // `d[k]` on a missing key
    | IndexError                   // `xs[i]` out of range
    | ValueError(reason: string)   // ipaddress rejects its input
    | TypeError                    // `json.loads(None)`
    | JsonDecodeError              // `json.loads` on text that is not JSON
    | AttributeError               // `.get` on a JSON value that is not an object
    | ClientError(message: string) // a provider or table call failed

  datatype Option<+T> = None | Some(value: T)

  /** A value, or the exception raised while computing it. */
  datatype Result<+T> = Ok(value: T) | Raised(fault: Fault) {
    predicate IsFailure() { Raised? }
    function PropagateFailure<U>(): Result<U> requires Raised? { Raised(fault) }
    function Extract(): T requires Ok? { value }
  }

  /** A `dict` with string keys, as its items in insertion order. */
  type Dict<V> = seq<(string, V)>

  function Keys<V>(d: Dict<V>): seq<string> {
    seq(|d|, i requires 0 <= i < |d| => d[i].0)
  }

  ghost predicate DistinctKeys<V>(d: Dict<V>) {
    forall i, j :: 0 <= i < j < |d| ==> d[i].0 != d[j].0
  }

  /** `d[k]`: the value bound to `k`, or KeyError. */
  function Get<V>(d: Dict<V>, k: string): (r: Result<V>)
    ensures r.Ok? <==> k in Keys(d)
    ensures r.Raised? ==> r.fault == KeyError(k)
    ensures r.Ok? ==> exists i :: 0 <= i < |d| && d[i] == (k, r.value)
  {
    if d == [] then Raised(KeyError(k))
    else if d[0].0 == k then
      assert Keys(d)[0] == k;
      Ok(d[0].1)
    else
      assert Keys(d) == [d[0].0] + Keys(d[1..]);
      var r := Get(d[1..], k);
      assert r.Ok? ==> exists i :: 1 <= i < |d| && d[i] == (k, r.value) by {
        if r.Ok? {
          var i :| 0 <= i < |d[1..]| && d[1..][i] == (k, r.value);
          assert d[i + 1] == (k, r.value);
        }
      }
      r
  }

  /** In a dict with distinct keys, the key of item `i` looks up that item's value. */
  lemma {:induction false} GetFindsUniqueKey<V>(d: Dict<V>, i: nat)
    requires DistinctKeys(d) && i < |d|
    ensures Get(d, d[i].0) == Ok(d[i].1)
  {
    if i > 0 {
      assert d[0].0 != d[i].0;
      assert d[1..][i - 1] == d[i];
      assert DistinctKeys(d[1..]) by {
        forall a, b | 0 <= a < b < |d| - 1
          ensures d[1..][a].0 != d[1..][b].0
        {
          assert d[1..][a] == d[a + 1] && d[1..][b] == d[b + 1];
        }
      }
      GetFindsUniqueKey(d[1..], i - 1);
    }
  }

  /** `d[k] = v`: rebinds an existing key where it stands, or appends a new item. */
  function Put<V>(d: Dict<V>, k: string, v: V): (r: Dict<V>)
    ensures k in Keys(d) ==> Keys(r) == Keys(d)
    ensures k !in Keys(d) ==> r == d + [(k, v)]
  {
    if d == [] then [(k, v)]
    else if d[0].0 == k then
      assert Keys(d)[0] == k;
      [(k, v)] + d[1..]
    else
      assert Keys(d) == [d[0].0] + Keys(d[1..]);
      var r := [d[0]] + Put(d[1..], k, v);
      assert r[1..] == Put(d[1..], k, v);
      assert Keys(r) == [d[0].0] + Keys(r[1..]);
      r
  }

  /** After `d[k] = v`, `k` maps to `v` and every other key to what it did before. */
  lemma {:induction false} PutThenGet<V>(d: Dict<V>, k: string, v: V, k': string)
    ensures Get(Put(d, k, v), k) == Ok(v)
    ensures k' != k ==> Get(Put(d, k, v), k') == Get(d, k')
  {
    if d != [] && d[0].0 != k {
      var r := Put(d, k, v);
      assert r[0] == d[0] && r[1..] == Put(d[1..], k, v);
      PutThenGet(d[1..], k, v, k');
    }
  }

  /** `not s` for a value that is None or a string. */
  predicate IsBlank(s: Option<string>) {
    s.None? || s.value == ""
  }

  /** Python's `pat in s` on strings. */
  function Contains(s: string, pat: string): bool
    decreases |s|
  {
    if |s| < |pat| then false
    else s[..|pat|] == pat || (|s| > 0 && Contains(s[1..], pat))
  }

  /** `pat` occurs in `s` starting at position `i`. */
  ghost predicate OccursAt(s: string, pat: string, i: int) {
    0 <= i <= |s| - |pat| && s[i..i + |pat|] == pat
  }

  /** `Contains` agrees with the positional definition of a substring. */
  lemma {:induction false} ContainsIff(s: string, pat: string)
    ensures Contains(s, pat) <==> exists i :: OccursAt(s, pat, i)
    decreases |s|
  {
    if |s| < |pat| {
    } else if s[..|pat|] == pat {
      assert OccursAt(s, pat, 0);
    } else {
      ContainsIff(s[1..], pat);
      if Contains(s, pat) {
        var i :| OccursAt(s[1..], pat, i);
        assert s[1..][i..i + |pat|] == s[i + 1..i + 1 + |pat|];
        assert OccursAt(s, pat, i + 1);
      } else {
        forall i | OccursAt(s, pat, i)
          ensures false
        {
          assert i > 0;
          assert s[1..][i - 1..i - 1 + |pat|] == s[i..i + |pat|];
          assert OccursAt(s[1..], pat, i - 1);
        }
      }
    }
  }

  /** Position `i` of `x` cannot start an occurrence of `pat`, whatever follows `x`:
      either the first character differs or the second one, inside `x`, does. */
  ghost predicate CannotStartAt(x: string, pat: string, i: nat)
    requires i < |x| && |pat| >= 2
  {
    x[i] != pat[0] || (i + 1 < |x| && x[i + 1] != pat[1])
  }

  /** A prefix `x` none of whose positions can start `pat` adds no occurrence
      of `pat` to `x + s`. */
  lemma {:induction false} ContainsAfterPrefix(x: string, s: string, pat: string)
    requires |pat| >= 2
    requires forall i :: 0 <= i < |x| ==> CannotStartAt(x, pat, i)
    ensures Contains(x + s, pat) == Contains(s, pat)
    decreases |x|
  {
    if x != [] {
      var xs := x + s;
      assert xs[1..] == x[1..] + s;
      assert CannotStartAt(x, pat, 0);
      if |xs| >= |pat| {
        assert xs[0] == x[0];
        assert x[0] == pat[0] ==> xs[1] == x[1];
        assert xs[..|pat|][0] == x[0] && xs[..|pat|][1] == xs[1];
      }
      forall i | 0 <= i < |x[1..]|
        ensures CannotStartAt(x[1..], pat, i)
      {
        assert CannotStartAt(x, pat, i + 1);
      }
      ContainsAfterPrefix(x[1..], s, pat);
    } else {
      assert x + s == s;
    }
  }

  /** A string always contains each of its prefixes. */
  lemma StartsWith(pat: string, t: string)
    ensures Contains(pat + t, pat)
  {
    assert (pat + t)[..|pat|] == pat;
  }
}
