/**
  The order in which a sorted map of strings visits its keys: strings are
  compared character by character on their char codes, and a proper prefix
  comes before any of its extensions. This is the order the family keys of
  the game are scanned in, and so the order that breaks ties between word
  families of equal size.
 */
module Lex {

  /** True iff `a` sorts strictly before `b`. */
  predicate LexLess(a: string, b: string)
  {
    if |a| == 0 then |b| > 0
    else if |b| == 0 then false
    else if a[0] != b[0] then a[0] < b[0]
    else LexLess(a[1..], b[1..])
  }

  lemma {:induction false} LexLessIrreflexive(a: string)
    ensures !LexLess(a, a)
  {
    if |a| > 0 {
      LexLessIrreflexive(a[1..]);
    }
  }

  lemma {:induction false} LexLessTransitive(a: string, b: string, c: string)
    requires LexLess(a, b) && LexLess(b, c)
    ensures LexLess(a, c)
  {
    if |a| > 0 && |b| > 0 && |c| > 0 && a[0] == b[0] && b[0] == c[0] {
      LexLessTransitive(a[1..], b[1..], c[1..]);
    }
  }

  lemma {:induction false} LexLessTotal(a: string, b: string)
    requires a != b
    ensures LexLess(a, b) || LexLess(b, a)
  {
    if |a| > 0 && |b| > 0 && a[0] == b[0] {
      assert a == [a[0]] + a[1..] && b == [b[0]] + b[1..];
      LexLessTotal(a[1..], b[1..]);
    }
  }

  lemma LexLessAsymmetric(a: string, b: string)
    requires LexLess(a, b)
    ensures !LexLess(b, a)
  {
    if LexLess(b, a) {
      LexLessTransitive(a, b, a);
      LexLessIrreflexive(a);
    }
  }

  /** The first key a sorted map over the keys `s` would visit. */
  ghost function MinKey(s: set<string>): (m: string)
    requires s != {}
    ensures m in s
    ensures forall k :: k in s && k != m ==> LexLess(m, k)
  {
    var x :| x in s;
    if s == {x} then x
    else
      var rest := MinKey(s - {x});
      if LexLess(x, rest) then
        assert forall k :: k in s && k != x ==> LexLess(x, k) by {
          forall k | k in s && k != x
            ensures LexLess(x, k)
          {
            if k != rest {
              LexLessTransitive(x, rest, k);
            }
          }
        }
        x
      else
        LexLessTotal(x, rest);
        rest
  }
}
