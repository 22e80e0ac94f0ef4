/** The string operations the generator relies on: `string.Join`, and splitting as its inverse. */
module Text {

  /** `string.Join(sep, items)`: the items in order, with `sep` between neighbours. */
  function Join(sep: string, items: seq<string>): string
  {
    if |items| == 0 then ""
    else if |items| == 1 then items[0]
    else items[0] + sep + Join(sep, items[1..])
  }

  /** Joining a leading item in front of a list. */
  lemma JoinCons(sep: string, x: string, items: seq<string>)
    ensures Join(sep, [x] + items) == if items == [] then x else x + sep + Join(sep, items)
  {
    assert ([x] + items)[1..] == items;
  }

  /** Splits `s` at every occurrence of `sep`; the pieces contain no `sep`. */
  function Split(sep: char, s: string): (pieces: seq<string>)
    ensures |pieces| >= 1
    ensures forall i :: 0 <= i < |pieces| ==> sep !in pieces[i]
    decreases |s|
  {
    if |s| == 0 then [""]
    else
      var rest := Split(sep, s[1..]);
      if s[0] == sep then [""] + rest
      else [[s[0]] + rest[0]] + rest[1..]
  }

  /** A piece without a separator, followed by the separator, splits off as one piece. */
  lemma {:induction false} SplitPiece(sep: char, x: string, tail: string)
    requires sep !in x
    ensures Split(sep, x + [sep] + tail) == [x] + Split(sep, tail)
    ensures Split(sep, x) == [x]
    decreases |x|
  {
    if |x| == 0 {
      assert x + [sep] + tail == [sep] + tail;
      assert ([sep] + tail)[1..] == tail;
    } else {
      SplitPiece(sep, x[1..], tail);
      assert (x + [sep] + tail)[1..] == x[1..] + [sep] + tail;
      assert [x[0]] + x[1..] == x;
    }
  }

  /** Splitting undoes joining, when no item contains the separator. */
  lemma {:induction false} SplitJoin(sep: char, items: seq<string>)
    requires |items| >= 1
    requires forall i :: 0 <= i < |items| ==> sep !in items[i]
    ensures Split(sep, Join([sep], items)) == items
  {
    if |items| == 1 {
      SplitPiece(sep, items[0], "");
    } else {
      SplitJoin(sep, items[1..]);
      SplitPiece(sep, items[0], Join([sep], items[1..]));
      assert [items[0]] + items[1..] == items;
    }
  }
}
