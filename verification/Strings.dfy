/** The string handling the service takes from Go's strings package. */
module Strings {

  datatype Option<+T> = None | Some(value: T)

  /** The pieces between separators; the empty string has one empty piece. */
  function Split(s: string, sep: char): (pieces: seq<string>)
    ensures |pieces| >= 1
    ensures forall piece | piece in pieces :: sep !in piece
    ensures Unsplit(pieces, sep) == s
  {
    if s == "" then [""]
    else if s[0] == sep then [""] + Split(s[1..], sep)
    else
      var rest := Split(s[1..], sep);
      assert Unsplit([[s[0]] + rest[0]] + rest[1..], sep) == [s[0]] + Unsplit(rest, sep);
      [[s[0]] + rest[0]] + rest[1..]
  }

  function Unsplit(pieces: seq<string>, sep: char): string
    requires |pieces| >= 1
  {
    if |pieces| == 1 then pieces[0] else pieces[0] + [sep] + Unsplit(pieces[1..], sep)
  }

  lemma {:induction false} SplitConcat(a: string, b: string, sep: char)
    ensures Split(a + [sep] + b, sep) == Split(a, sep) + Split(b, sep)
  {
    var whole := a + [sep] + b;
    if a == "" {
      assert whole[1..] == b;
    } else {
      assert whole[1..] == a[1..] + [sep] + b;
      SplitConcat(a[1..], b, sep);
    }
  }

  lemma {:induction false} SplitSingle(s: string, sep: char)
    requires sep !in s
    ensures Split(s, sep) == [s]
  {
    if s != "" {
      SplitSingle(s[1..], sep);
    }
  }

  /** A text without the separator is one piece, and only such a text is. */
  lemma OnePieceIff(s: string, sep: char)
    ensures |Split(s, sep)| == 1 <==> sep !in s
  {
    if sep !in s { SplitSingle(s, sep); }
    if |Split(s, sep)| == 1 { assert s == Split(s, sep)[0] && Split(s, sep)[0] in Split(s, sep); }
  }

  /** Any text with a separator in it falls apart there. */
  lemma FallsApart(s: string, sep: char) returns (a: string, b: string)
    requires sep in s
    ensures s == a + [sep] + b
  {
    var i :| 0 <= i < |s| && s[i] == sep;
    a, b := s[..i], s[i + 1..];
  }

  lemma {:induction false} SplitUnsplit(pieces: seq<string>, sep: char)
    requires |pieces| >= 1
    requires forall piece | piece in pieces :: sep !in piece
    ensures Split(Unsplit(pieces, sep), sep) == pieces
  {
    SplitSingle(pieces[0], sep);
    if |pieces| > 1 {
      SplitConcat(pieces[0], Unsplit(pieces[1..], sep), sep);
      SplitUnsplit(pieces[1..], sep);
    }
  }

  /** Unicode white space, as strings.TrimSpace sees it. */
  predicate Space(c: char) {
    || c in {'\t', '\n', '\r', ' ', '\U{b}', '\U{c}', '\U{85}', '\U{a0}', '\U{1680}', '\U{2028}', '\U{2029}', '\U{202f}', '\U{205f}', '\U{3000}'}
    || '\U{2000}' <= c <= '\U{200a}'
  }

  lemma SpaceIff(c: char)
    ensures Space(c) <==>
              var n := c as int;
              || 9 <= n <= 13 || n == 32 || n == 0x85 || n == 0xa0 || n == 0x1680 || 0x2000 <= n <= 0x200a
              || n == 0x2028 || n == 0x2029 || n == 0x202f || n == 0x205f || n == 0x3000
  {
  }

  function TrimLeft(s: string): string {
    if s != "" && Space(s[0]) then TrimLeft(s[1..]) else s
  }

  function TrimRight(s: string): string {
    if s != "" && Space(s[|s| - 1]) then TrimRight(s[..|s| - 1]) else s
  }

  function TrimSpace(s: string): string {
    TrimRight(TrimLeft(s))
  }

  ghost predicate AllSpace(s: string) {
    forall i | 0 <= i < |s| :: Space(s[i])
  }

  lemma {:induction false} TrimRightCuts(s: string) returns (after: string)
    ensures s == TrimRight(s) + after && AllSpace(after)
    ensures TrimRight(s) == "" || !Space(TrimRight(s)[|TrimRight(s)| - 1])
  {
    if s != "" && Space(s[|s| - 1]) {
      after := TrimRightCuts(s[..|s| - 1]);
      after := after + [s[|s| - 1]];
    } else {
      after := "";
    }
  }

  lemma {:induction false} TrimLeftCuts(s: string) returns (before: string)
    ensures s == before + TrimLeft(s) && AllSpace(before)
    ensures TrimLeft(s) == "" || !Space(TrimLeft(s)[0])
  {
    if s != "" && Space(s[0]) {
      before := TrimLeftCuts(s[1..]);
      before := [s[0]] + before;
    } else {
      before := "";
    }
  }

  /** Trimming takes white space off both ends, all of it, and nothing else. */
  lemma TrimCuts(s: string) returns (before: string, after: string)
    ensures s == before + TrimSpace(s) + after && AllSpace(before) && AllSpace(after)
    ensures var t := TrimSpace(s); t == "" || (!Space(t[0]) && !Space(t[|t| - 1]))
  {
    before := TrimLeftCuts(s);
    after := TrimRightCuts(TrimLeft(s));
    var t := TrimSpace(s);
    assert t != "" ==> t[0] == TrimLeft(s)[0];
  }

  /** So trimming twice is trimming once. */
  lemma Trimmed(s: string)
    ensures TrimSpace(TrimSpace(s)) == TrimSpace(s)
  {
    var before, after := TrimCuts(s);
  }
}
