/** Strings as the source handles them: `split` and `join` on one character, and searching. */
module Text {

  datatype Option<+T> = None | Some(value: T)

  /** `s.split(c)`: the pieces between occurrences of `c`; there is always at least one. */
  function Split(s: string, c: char): (parts: seq<string>)
    ensures |parts| >= 1
  {
    if s == "" then [""]
    else
      var rest := Split(s[1..], c);
      if s[0] == c then [""] + rest else [[s[0]] + rest[0]] + rest[1..]
  }

  /** `parts.join(c)`. */
  function Join(parts: seq<string>, c: char): string {
    if |parts| == 0 then ""
    else if |parts| == 1 then parts[0]
    else parts[0] + [c] + Join(parts[1..], c)
  }

  lemma {:induction false} JoinSplit(s: string, c: char)
    ensures Join(Split(s, c), c) == s
  {
    if s != "" {
      JoinSplit(s[1..], c);
      var rest := Split(s[1..], c);
      if s[0] == c {
        assert ([""] + rest)[1..] == rest;
      } else {
        var parts := [[s[0]] + rest[0]] + rest[1..];
        assert parts[1..] == rest[1..];
        assert Join(parts, c) == [s[0]] + Join(rest, c);
      }
    }
  }

  lemma {:induction false} SplitPieces(s: string, c: char)
    ensures forall k :: 0 <= k < |Split(s, c)| ==> c !in Split(s, c)[k]
  {
    if s != "" {
      SplitPieces(s[1..], c);
    }
  }

  /** A piece without the separator is consumed whole, up to the separator that follows it. */
  lemma {:induction false} SplitStep(piece: string, rest: string, c: char)
    requires c !in piece
    ensures Split(piece + [c] + rest, c) == [piece] + Split(rest, c)
  {
    var s := piece + [c] + rest;
    if piece == "" {
      assert s[1..] == rest;
    } else {
      assert s[1..] == piece[1..] + [c] + rest;
      SplitStep(piece[1..], rest, c);
      assert [piece[0]] + piece[1..] == piece;
    }
  }

  lemma {:induction false} SplitSingle(piece: string, c: char)
    requires c !in piece
    ensures Split(piece, c) == [piece]
  {
    if piece != "" {
      SplitSingle(piece[1..], c);
      assert [piece[0]] + piece[1..] == piece;
    }
  }

  lemma {:induction false} SplitJoin(parts: seq<string>, c: char)
    requires |parts| >= 1
    requires forall k :: 0 <= k < |parts| ==> c !in parts[k]
    ensures Split(Join(parts, c), c) == parts
  {
    if |parts| == 1 {
      SplitSingle(parts[0], c);
    } else {
      SplitJoin(parts[1..], c);
      SplitStep(parts[0], Join(parts[1..], c), c);
    }
  }

  /** Splitting at a separator splits both sides. */
  lemma {:induction false} SplitConcat(a: string, b: string, c: char)
    ensures Split(a + [c] + b, c) == Split(a, c) + Split(b, c)
  {
    var s := a + [c] + b;
    if a == "" {
      assert s[1..] == b;
    } else {
      assert s[1..] == a[1..] + [c] + b;
      SplitConcat(a[1..], b, c);
    }
  }

  /** A prefix without the separator joins the first piece. */
  lemma {:induction false} SplitPrefix(prefix: string, s: string, c: char)
    requires c !in prefix
    ensures Split(prefix + s, c) == [prefix + Split(s, c)[0]] + Split(s, c)[1..]
  {
    if prefix == "" {
      assert prefix + s == s && prefix + Split(s, c)[0] == Split(s, c)[0];
    } else {
      assert (prefix + s)[1..] == prefix[1..] + s;
      SplitPrefix(prefix[1..], s, c);
      assert [prefix[0]] + (prefix[1..] + Split(s, c)[0]) == prefix + Split(s, c)[0];
    }
  }
}
