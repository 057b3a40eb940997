/** The orders the list endpoints sort by: tag names ascending, compared
    character by character on code points. */
module Ordering {
  import opened Types

  /** `a` sorts no later than `b`. */
  predicate LexLe(a: string, b: string)
    decreases |a|
  {
    a == [] || (b != [] && (a[0] < b[0] || (a[0] == b[0] && LexLe(a[1..], b[1..]))))
  }

  lemma {:induction false} LexTotal(a: string, b: string)
    ensures LexLe(a, b) || LexLe(b, a)
    decreases |a|
  {
    if a != [] && b != [] && a[0] == b[0] {
      LexTotal(a[1..], b[1..]);
    }
  }

  lemma {:induction false} LexTrans(a: string, b: string, c: string)
    requires LexLe(a, b) && LexLe(b, c)
    ensures LexLe(a, c)
    decreases |a|
  {
    if a != [] && a[0] == b[0] && b[0] == c[0] {
      LexTrans(a[1..], b[1..], c[1..]);
    }
  }

  lemma {:induction false} LexAntisym(a: string, b: string)
    requires LexLe(a, b) && LexLe(b, a)
    ensures a == b
    decreases |a|
  {
    if a != [] {
      LexAntisym(a[1..], b[1..]);
      assert a == [a[0]] + a[1..] && b == [b[0]] + b[1..];
    }
  }

  /** Ascending by name. */
  predicate SortedByName(s: seq<Tag>)
  {
    forall i, j :: 0 <= i < j < |s| ==> LexLe(s[i].name, s[j].name)
  }

  /** Insert `t` into a list sorted by name, before the first tag it does not follow. */
  function InsertByName(t: Tag, s: seq<Tag>): (r: seq<Tag>)
    requires SortedByName(s)
    ensures multiset(r) == multiset(s) + multiset{t}
    ensures SortedByName(r)
    decreases |s|
  {
    if s == [] then [t]
    else if LexLe(t.name, s[0].name) then
      assert SortedByName([t] + s) by {
        forall i, j | 0 <= i < j < |s| + 1 ensures LexLe(([t] + s)[i].name, ([t] + s)[j].name) {
          if i == 0 && j > 1 { LexTrans(t.name, s[0].name, s[j - 1].name); }
        }
      }
      [t] + s
    else
      LexTotal(t.name, s[0].name);
      var rest := InsertByName(t, s[1..]);
      assert s == [s[0]] + s[1..];
      assert forall x :: x in rest ==> LexLe(s[0].name, x.name) by {
        forall x | x in rest ensures LexLe(s[0].name, x.name) {
          assert x in multiset(rest);
          if x != t {
            assert x in multiset(s[1..]);
            var k :| 0 <= k < |s[1..]| && s[1..][k] == x;
            assert s[k + 1] == x;
          }
        }
      }
      assert SortedByName([s[0]] + rest) by {
        forall i, j | 0 <= i < j < |rest| + 1 ensures LexLe(([s[0]] + rest)[i].name, ([s[0]] + rest)[j].name) {
          if i == 0 {
            assert rest[j - 1] in rest;
          }
        }
      }
      [s[0]] + rest
  }

  /** The tags ordered ascending by name (insertion sort). */
  function SortByName(s: seq<Tag>): (r: seq<Tag>)
    ensures multiset(r) == multiset(s)
    ensures SortedByName(r)
    decreases |s|
  {
    if s == [] then []
    else
      assert s == [s[0]] + s[1..];
      InsertByName(s[0], SortByName(s[1..]))
  }
}
