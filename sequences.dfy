/** Flattening of sequences of sequences (List.AddRange, string concatenation, byte streams). */
module Sequences {

  /** Concatenation regrouped: what a sink holds after one more write. */
  lemma AppendAssoc<T>(a: seq<T>, b: seq<T>, c: seq<T>)
    ensures (a + b) + c == a + (b + c)
  {
  }

  /** `e` occurs in `s` from position `i` on: what a reader finds where a writer put `e`. */
  ghost predicate At<T>(s: seq<T>, i: nat, e: seq<T>)
    decreases |e|
  {
    if |e| == 0 then i <= |s| else i < |s| && s[i] == e[0] && At(s, i + 1, e[1..])
  }

  lemma {:induction false} AtIndex<T>(s: seq<T>, i: nat, e: seq<T>, k: nat)
    requires At(s, i, e) && k < |e|
    ensures i + k < |s| && s[i + k] == e[k]
    decreases k
  {
    if k > 0 {
      AtIndex(s, i + 1, e[1..], k - 1);
    }
  }

  lemma {:induction false} AtSlice<T>(s: seq<T>, i: nat, e: seq<T>)
    requires At(s, i, e)
    ensures i + |e| <= |s| && s[i..i + |e|] == e
    decreases |e|
  {
    if |e| > 0 {
      AtSlice(s, i + 1, e[1..]);
      assert s[i + 1..i + |e|] == e[1..];
      assert s[i..i + |e|] == [s[i]] + s[i + 1..i + |e|];
      assert e == [e[0]] + e[1..];
    }
  }

  /** Two pieces written one after the other are found one after the other. */
  lemma {:induction false} AtSplit<T>(s: seq<T>, i: nat, a: seq<T>, b: seq<T>)
    requires At(s, i, a + b)
    ensures At(s, i, a) && At(s, i + |a|, b)
    decreases |a|
  {
    if |a| == 0 {
      assert a + b == b;
    } else {
      assert (a + b)[1..] == a[1..] + b;
      AtSplit(s, i + 1, a[1..], b);
    }
  }

  /** Whatever comes before and after, `e` is found where it was put. */
  lemma {:induction false} AtAppend<T>(p: seq<T>, e: seq<T>, rest: seq<T>)
    ensures At(p + e + rest, |p|, e)
    decreases |e|
  {
    if |e| > 0 {
      assert p + e + rest == (p + [e[0]]) + e[1..] + rest;
      AtAppend(p + [e[0]], e[1..], rest);
    }
  }

  /*
   * Regrouping a left-nested chain of appends behind a prefix: what a writer
   * appends piece by piece equals the prefix followed by the whole text.
   */

  lemma Regroup3<T>(o: seq<T>, x1: seq<T>, x2: seq<T>, x3: seq<T>)
    ensures o + x1 + x2 + x3 == o + (x1 + x2 + x3)
  {
    AppendAssoc(o, x1, x2);
    AppendAssoc(o, x1 + x2, x3);
  }

  lemma Regroup4<T>(o: seq<T>, x1: seq<T>, x2: seq<T>, x3: seq<T>, x4: seq<T>)
    ensures o + x1 + x2 + x3 + x4 == o + (x1 + x2 + x3 + x4)
  {
    Regroup3(o, x1, x2, x3);
    AppendAssoc(o, x1 + x2 + x3, x4);
  }

  lemma Regroup5<T>(o: seq<T>, x1: seq<T>, x2: seq<T>, x3: seq<T>, x4: seq<T>, x5: seq<T>)
    ensures o + x1 + x2 + x3 + x4 + x5 == o + (x1 + x2 + x3 + x4 + x5)
  {
    Regroup4(o, x1, x2, x3, x4);
    AppendAssoc(o, x1 + x2 + x3 + x4, x5);
  }

  lemma Regroup6<T>(o: seq<T>, x1: seq<T>, x2: seq<T>, x3: seq<T>, x4: seq<T>, x5: seq<T>, x6: seq<T>)
    ensures o + x1 + x2 + x3 + x4 + x5 + x6 == o + (x1 + x2 + x3 + x4 + x5 + x6)
  {
    Regroup5(o, x1, x2, x3, x4, x5);
    AppendAssoc(o, x1 + x2 + x3 + x4 + x5, x6);
  }

  lemma Regroup7<T>(o: seq<T>, x1: seq<T>, x2: seq<T>, x3: seq<T>, x4: seq<T>, x5: seq<T>, x6: seq<T>, x7: seq<T>)
    ensures o + x1 + x2 + x3 + x4 + x5 + x6 + x7 == o + (x1 + x2 + x3 + x4 + x5 + x6 + x7)
  {
    Regroup6(o, x1, x2, x3, x4, x5, x6);
    AppendAssoc(o, x1 + x2 + x3 + x4 + x5 + x6, x7);
  }

  lemma Regroup8<T>(o: seq<T>, x1: seq<T>, x2: seq<T>, x3: seq<T>, x4: seq<T>, x5: seq<T>, x6: seq<T>, x7: seq<T>, x8: seq<T>)
    ensures o + x1 + x2 + x3 + x4 + x5 + x6 + x7 + x8 == o + (x1 + x2 + x3 + x4 + x5 + x6 + x7 + x8)
  {
    Regroup7(o, x1, x2, x3, x4, x5, x6, x7);
    AppendAssoc(o, x1 + x2 + x3 + x4 + x5 + x6 + x7, x8);
  }

  /** The concatenation, in order, of all the parts. */
  function Flatten<T>(parts: seq<seq<T>>): seq<T>
  {
    if |parts| == 0 then [] else parts[0] + Flatten(parts[1..])
  }
}
