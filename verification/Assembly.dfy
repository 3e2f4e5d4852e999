/**
 * Assembling the combined context: the contexts joined with a newline
 * separator, as a string join with "\n" does, and splitting on newlines as a
 * reference for what the join preserves. Joining the pieces of a split always
 * gives the text back; splitting a join gives the items back when there is at
 * least one item and none contains a newline.
 */
module Assembly {

  const Newline: char := '\n'

  /** Sum of the lengths of the items. */
  function TotalLength(items: seq<string>): nat
  {
    if items == [] then 0 else |items[0]| + TotalLength(items[1..])
  }

  /**
   * The items separated by exactly one newline each: no items give "", one item
   * gives that item, and the length is the items' lengths plus one per separator.
   */
  function Join(items: seq<string>): (r: string)
    ensures |items| == 0 ==> r == ""
    ensures |items| == 1 ==> r == items[0]
    ensures |items| >= 1 ==> |r| == TotalLength(items) + |items| - 1
  {
    if |items| == 0 then ""
    else if |items| == 1 then items[0]
    else items[0] + [Newline] + Join(items[1..])
  }

  /** Position of the first occurrence of `c` in `s`. */
  function IndexOf(s: string, c: char): (i: nat)
    requires c in s
    ensures i < |s| && s[i] == c
    ensures c !in s[..i]
  {
    if s[0] == c then 0 else 1 + IndexOf(s[1..], c)
  }

  /**
   * The pieces of `s` between newlines (a newline-free `s` is one piece, so ""
   * splits into [""]). Joining the pieces gives `s` back.
   */
  function Split(s: string): (r: seq<string>)
    ensures |r| >= 1
    ensures forall k :: 0 <= k < |r| ==> Newline !in r[k]
    ensures Join(r) == s
    decreases |s|
  {
    if Newline !in s then [s]
    else
      var i := IndexOf(s, Newline);
      var rest := Split(s[i + 1..]);
      assert s == s[..i] + [Newline] + s[i + 1..];
      [s[..i]] + rest
  }

  predicate NoNewlines(items: seq<string>)
  {
    forall k :: 0 <= k < |items| ==> Newline !in items[k]
  }

  /**
   * The join is order-preserving: when no item holds a newline, the lines of
   * the joined text are the items, in their order.
   */
  lemma {:induction false} SplitJoin(items: seq<string>)
    requires |items| >= 1 && NoNewlines(items)
    ensures Split(Join(items)) == items
  {
    if |items| > 1 {
      SplitAfterLine(items[0], Join(items[1..]));
      SplitJoin(items[1..]);
      assert items == [items[0]] + items[1..];
    }
  }

  /** A newline-free line followed by a newline splits off as the first piece. */
  lemma SplitAfterLine(a: string, b: string)
    requires Newline !in a
    ensures Split(a + [Newline] + b) == [a] + Split(b)
  {
    var s := a + [Newline] + b;
    var i := IndexOf(s, Newline);
    assert s[|a|] == Newline;
    assert i == |a| by {
      assert s[..|a|] == a;
    }
    assert s[..i] == a;
    assert s[i + 1..] == b;
  }

  /** Joining two non-empty lists puts the first list's text, one newline, then the second's. */
  lemma {:induction false} JoinAppend(xs: seq<string>, ys: seq<string>)
    requires |xs| >= 1 && |ys| >= 1
    ensures Join(xs + ys) == Join(xs) + [Newline] + Join(ys)
  {
    if |xs| == 1 {
      assert (xs + ys)[1..] == ys;
    } else {
      assert (xs + ys)[1..] == xs[1..] + ys;
      JoinAppend(xs[1..], ys);
    }
  }
}
