/** Small helpers shared by every component model: an optional value and the
    array operations the components use (`filter`, `includes`, `some`,
    removal by index, ASCII lower-casing and `String.prototype.includes`). */
module Common {

  /** `T | undefined` / `T | null` */
  datatype Option<+T> = None | Some(value: T)

  /** The outcome of an awaited remote read: the value it resolved to, or a
      thrown error. */
  datatype Fetch<+T> = Fetched(value: T) | Threw

  /** A value, or the message of the error that replaced it. */
  datatype Result<+T> = Ok(value: T) | Err(msg: string)

  /** The hosted store's answer to an insert: no error, an error with its
      message, or a rejected call. */
  datatype InsertAnswer = Inserted | InsertError(message: string) | InsertThrew

  /** The outcome of an awaited remote call whose value is not used. */
  datatype Completion = Completed | Thrown

  /** `s.filter(p)`: the elements satisfying `p`, in their original order. */
  function Filter<T(!new)>(s: seq<T>, p: T -> bool): (r: seq<T>)
    ensures |r| <= |s|
    ensures forall x :: x in r <==> x in s && p(x)
    ensures forall k :: 0 <= k < |r| ==> p(r[k])
  {
    if s == [] then [] else (if p(s[0]) then [s[0]] else []) + Filter(s[1..], p)
  }

  lemma {:induction false} FilterConcat<T(!new)>(a: seq<T>, b: seq<T>, p: T -> bool)
    ensures Filter(a + b, p) == Filter(a, p) + Filter(b, p)
  {
    if a == [] {
      assert a + b == b;
    } else {
      assert (a + b)[0] == a[0];
      assert (a + b)[1..] == a[1..] + b;
      FilterConcat(a[1..], b, p);
    }
  }

  /** A filter that every element passes keeps the whole sequence. */
  lemma {:induction false} FilterKeepsAll<T(!new)>(s: seq<T>, p: T -> bool)
    requires forall k :: 0 <= k < |s| ==> p(s[k])
    ensures Filter(s, p) == s
  {
    if s != [] {
      FilterKeepsAll(s[1..], p);
    }
  }

  /** A filter that no element passes yields the empty sequence. */
  lemma {:induction false} FilterKeepsNone<T(!new)>(s: seq<T>, p: T -> bool)
    requires forall k :: 0 <= k < |s| ==> !p(s[k])
    ensures Filter(s, p) == []
  {
    if s != [] {
      FilterKeepsNone(s[1..], p);
    }
  }

  /** No element occurs twice. */
  predicate Distinct<T(==)>(s: seq<T>) {
    forall i, j :: 0 <= i < j < |s| ==> s[i] != s[j]
  }

  lemma {:induction false} FilterDistinct<T(!new)>(s: seq<T>, p: T -> bool)
    requires Distinct(s)
    ensures Distinct(Filter(s, p))
  {
    if s != [] {
      FilterDistinct(s[1..], p);
      var rest := Filter(s[1..], p);
      assert s[0] !in s[1..] by {
        forall k | 0 <= k < |s[1..]| ensures s[1..][k] != s[0] {
          assert s[1..][k] == s[k + 1];
        }
      }
      assert s[0] !in rest;
    }
  }

  /** `s.filter(x => x !== v)` */
  function RemoveAll<T(==,!new)>(s: seq<T>, v: T): (r: seq<T>)
    ensures v !in r
    ensures forall x :: x in r <==> x in s && x != v
  {
    Filter(s, x => x != v)
  }

  /** Removing a value that does not occur leaves the sequence as it was. */
  lemma RemoveAbsent<T(!new)>(s: seq<T>, v: T)
    requires v !in s
    ensures RemoveAll(s, v) == s
  {
    forall k | 0 <= k < |s| ensures (x => x != v)(s[k]) {
      assert s[k] in s;
    }
    FilterKeepsAll(s, x => x != v);
  }

  /** Removing a value just appended removes the appended copy too. */
  lemma RemoveAppended<T(!new)>(s: seq<T>, v: T)
    ensures RemoveAll(s + [v], v) == RemoveAll(s, v)
  {
    FilterConcat(s, [v], x => x != v);
    assert Filter([v], x => x != v) == [];
  }

  /** `s.filter((_, k) => k !== i)`: the sequence without its `i`-th entry. */
  function RemoveAt<T>(s: seq<T>, i: int): (r: seq<T>)
    requires 0 <= i < |s|
    ensures |r| == |s| - 1
    ensures forall k :: 0 <= k < i ==> r[k] == s[k]
    ensures forall k :: i <= k < |r| ==> r[k] == s[k + 1]
  {
    s[..i] + s[i + 1..]
  }

  /** `ASCII` lower-casing of one character (`toLowerCase` on A-Z). */
  function LowerChar(c: char): char {
    if 'A' <= c <= 'Z' then (c as int - 'A' as int + 'a' as int) as char else c
  }

  /** `ASCII` upper-casing of one character (`toUpperCase` on a-z). */
  function UpperChar(c: char): char {
    if 'a' <= c <= 'z' then (c as int - 'a' as int + 'A' as int) as char else c
  }

  function Lower(s: string): (r: string)
    ensures |r| == |s|
    ensures forall k :: 0 <= k < |s| ==> r[k] == LowerChar(s[k])
  {
    if s == [] then [] else [LowerChar(s[0])] + Lower(s[1..])
  }

  /** `q` occurs in `s` starting at position `i`. */
  predicate OccursAt(s: string, q: string, i: int) {
    0 <= i <= |s| - |q| && s[i..i + |q|] == q
  }

  /** `s.includes(q)`: `q` occurs in `s` as a contiguous piece. */
  ghost predicate Includes(s: string, q: string) {
    exists i :: OccursAt(s, q, i)
  }

  /** The same test, by scanning: `q` is a prefix of some suffix of `s`. */
  function IncludesScan(s: string, q: string): (b: bool)
    ensures b <==> Includes(s, q)
  {
    if q <= s then
      assert OccursAt(s, q, 0);
      true
    else if s == [] then
      assert forall i :: !OccursAt(s, q, i);
      false
    else
      var b := IncludesScan(s[1..], q);
      assert b ==> Includes(s, q) by {
        if b {
          var i :| OccursAt(s[1..], q, i);
          assert s[1..][i..i + |q|] == s[i + 1..i + 1 + |q|];
          assert OccursAt(s, q, i + 1);
        }
      }
      assert Includes(s, q) ==> b by {
        if Includes(s, q) {
          var i :| OccursAt(s, q, i);
          assert i != 0 by {
            assert OccursAt(s, q, 0) ==> q <= s;
          }
          assert s[1..][i - 1..i - 1 + |q|] == s[i..i + |q|];
          assert OccursAt(s[1..], q, i - 1);
        }
      }
      b
  }

  /** The empty query occurs in every string. */
  lemma EmptyQueryIncluded(s: string)
    ensures IncludesScan(s, "")
  {
    assert s[0..0] == "";
  }
}
