/** Slash-separated paths, cleaned and joined the way Go's path.Clean and path.Join do it. */
module Paths {
  import opened Strings

  /** A segment that cleaning leaves alone. */
  predicate Plain(segment: string) {
    segment != "" && segment != "." && segment != ".."
  }

  /** A relative path that is already clean and never climbs. */
  predicate Canonical(s: string) {
    forall segment | segment in Split(s, '/') :: Plain(segment)
  }

  /** One segment of cleaning: stack holds the segments kept so far. */
  function Push(stack: seq<string>, segment: string, rooted: bool): seq<string> {
    if segment == "" || segment == "." then stack
    else if segment == ".." then
      if stack != [] && stack[|stack| - 1] != ".." then stack[..|stack| - 1]
      else if rooted then stack
      else stack + [".."]
    else stack + [segment]
  }

  /** Cleaning's left-to-right pass. */
  function Reduce(segments: seq<string>, stack: seq<string>, rooted: bool): seq<string>
    decreases |segments|
  {
    if segments == [] then stack
    else Reduce(segments[1..], Push(stack, segments[0], rooted), rooted)
  }

  function Clean(s: string): string {
    if s == "" then "."
    else
      var rooted := s[0] == '/';
      var stack := Reduce(Split(s, '/'), [], rooted);
      if stack == [] then (if rooted then "/" else ".")
      else (if rooted then "/" else "") + Unsplit(stack, '/')
  }

  function Join(dir: string, rel: string): string {
    if dir == "" && rel == "" then ""
    else if dir == "" then Clean(rel)
    else if rel == "" then Clean(dir)
    else Clean(dir + "/" + rel)
  }

  /** p lies strictly below dir: strings.HasPrefix(p, dir + "/"). */
  predicate Under(dir: string, p: string) {
    dir + "/" <= p
  }

  lemma {:induction false} ReducePlain(segments: seq<string>, stack: seq<string>, rooted: bool)
    requires forall segment | segment in segments :: Plain(segment)
    ensures Reduce(segments, stack, rooted) == stack + segments
    decreases |segments|
  {
    if segments == [] {
      assert stack + segments == stack;
    } else {
      assert Plain(segments[0]);
      ReducePlain(segments[1..], stack + [segments[0]], rooted);
      assert stack + [segments[0]] + segments[1..] == stack + segments;
    }
  }

  /** What cleaning leaves behind: no empty or "." piece, and ".." only at the front. */
  ghost predicate Reduced(stack: seq<string>) {
    && (forall i | 0 <= i < |stack| :: stack[i] != "" && stack[i] != "." && '/' !in stack[i])
    && (forall i, j | 0 <= i < j < |stack| :: stack[j] == ".." ==> stack[i] == "..")
  }

  lemma {:induction false} ReduceReduced(segments: seq<string>, stack: seq<string>, rooted: bool)
    requires Reduced(stack)
    requires forall segment | segment in segments :: '/' !in segment
    ensures Reduced(Reduce(segments, stack, rooted))
    decreases |segments|
  {
    if segments != [] {
      ReduceReduced(segments[1..], Push(stack, segments[0], rooted), rooted);
    }
  }

  lemma {:induction false} ReducedStays(segments: seq<string>, stack: seq<string>, rooted: bool)
    requires Reduced(stack + segments) && (rooted ==> ".." !in stack + segments)
    ensures Reduce(segments, stack, rooted) == stack + segments
    decreases |segments|
  {
    if segments == [] {
      assert stack + segments == stack;
    } else {
      assert (stack + segments)[|stack|] == segments[0];
      assert forall i | 0 <= i < |stack| :: (stack + segments)[i] == stack[i];
      assert stack + [segments[0]] + segments[1..] == stack + segments;
      ReducedStays(segments[1..], stack + [segments[0]], rooted);
    }
  }

  lemma {:induction false} NoClimbing(segments: seq<string>, stack: seq<string>)
    requires ".." !in stack
    ensures ".." !in Reduce(segments, stack, true)
    decreases |segments|
  {
    if segments != [] { NoClimbing(segments[1..], Push(stack, segments[0], true)); }
  }

  /** A clean path is left as it is, rooted or not. */
  lemma CleanTwice(s: string)
    ensures Clean(Clean(s)) == Clean(s)
  {
    if s != "" {
      var rooted := s[0] == '/';
      var stack := Reduce(Split(s, '/'), [], rooted);
      ReduceReduced(Split(s, '/'), [], rooted);
      if rooted { NoClimbing(Split(s, '/'), []); }
      if stack != [] { CleanStack(stack, rooted); }
      else if rooted { assert Split("/", '/') == ["", ""]; assert Reduce(["", ""], [], true) == Reduce([""], [], true) == []; }
      else { SplitSingle(".", '/'); assert Reduce(["."], [], false) == []; }
    } else {
      SplitSingle(".", '/');
      assert Reduce(["."], [], false) == [];
    }
  }

  lemma CleanStack(stack: seq<string>, rooted: bool)
    requires stack != [] && Reduced(stack) && (rooted ==> ".." !in stack)
    ensures var path := (if rooted then "/" else "") + Unsplit(stack, '/'); Clean(path) == path
  {
    var rest := Unsplit(stack, '/');
    SplitUnsplit(stack, '/');
    UnsplitStart(stack);
    assert [] + stack == stack;
    ReducedStays(stack, [], rooted);
    SplitConcat("", rest, '/');
    SplitSingle("", '/');
    SkipEmpty(stack, rooted);
    hide Reduced, Split, Unsplit, Reduce;
    if rooted {
      assert "/" + rest == "" + ['/'] + rest;
      assert Clean("/" + rest) == "/" + rest;
    } else {
      assert "" + rest == rest;
      assert Clean(rest) == rest;
    }
  }

  lemma SkipEmpty(segments: seq<string>, rooted: bool)
    ensures Reduce([""] + segments, [], rooted) == Reduce(segments, [], rooted)
  {
    assert ([""] + segments)[1..] == segments;
  }

  lemma UnsplitStart(stack: seq<string>)
    requires stack != [] && Reduced(stack)
    ensures Unsplit(stack, '/') != "" && Unsplit(stack, '/')[0] != '/'
  {
    assert stack[0] != "" && '/' !in stack[0] && stack[0][0] in stack[0];
  }

  lemma CanonicalJoin(dir: string, rel: string)
    requires Canonical(dir) && Canonical(rel)
    ensures Join(dir, rel) == dir + "/" + rel
    ensures Canonical(dir + "/" + rel)
  {
    SplitConcat(dir, rel, '/');
    ReducePlain(Split(dir + "/" + rel, '/'), [], false);
    assert [] + Split(dir + "/" + rel, '/') == Split(dir + "/" + rel, '/');
    assert Split("", '/') == [""] && !Plain("");
    assert Split(dir, '/')[0] != "";
    assert dir[0] != '/';
  }

  lemma CanonicalStart(dir: string)
    requires Canonical(dir)
    ensures dir != "" && dir[0] != '/'
  {
    assert Split("", '/') == [""] && !Plain("");
    assert Split(dir, '/')[0] != "";
  }

  lemma JoinedIsCanonical(dir: string, rel: string)
    requires Canonical(dir) && rel != "" && Join(dir, rel) == dir + "/" + rel
    ensures Canonical(rel)
  {
    var whole := dir + "/" + rel;
    CanonicalStart(dir);
    SplitConcat(dir, rel, '/');
    ReduceReduced(Split(whole, '/'), [], false);
    var stack := Reduce(Split(whole, '/'), [], false);
    hide Reduce, Canonical;
    assert whole[0] == dir[0] && |whole| >= 2;
    assert stack != [] && Unsplit(stack, '/') == whole;
    SplitUnsplit(stack, '/');
    ReducedIsPlain(dir, rel, stack);
  }

  lemma ReducedIsPlain(dir: string, rel: string, stack: seq<string>)
    requires Canonical(dir) && Reduced(stack) && stack == Split(dir, '/') + Split(rel, '/')
    ensures Canonical(rel)
  {
    hide Split;
    assert stack[0] == Split(dir, '/')[0] && Plain(stack[0]);
    forall segment | segment in Split(rel, '/') ensures Plain(segment) {
      var i :| 0 <= i < |Split(rel, '/')| && Split(rel, '/')[i] == segment;
      assert stack[|Split(dir, '/')| + i] == segment;
    }
  }

  /** Joining onto a canonical directory keeps both parts as written exactly when the relative part is canonical. */
  lemma JoinKeepsBothPartsIff(dir: string, rel: string)
    requires Canonical(dir)
    ensures Join(dir, rel) == dir + "/" + rel <==> Canonical(rel)
  {
    if Canonical(rel) {
      CanonicalJoin(dir, rel);
    } else if rel == "" {
      CanonicalStart(dir);
      ReducePlain(Split(dir, '/'), [], false);
      assert [] + Split(dir, '/') == Split(dir, '/');
      assert Join(dir, rel) == dir;
      assert |dir + "/" + rel| == |dir| + 1;
    } else if Join(dir, rel) == dir + "/" + rel {
      JoinedIsCanonical(dir, rel);
    }
  }

  /** The text before the first slash is determined by the whole. */
  lemma FirstSlash(a: string, x: string, b: string, y: string)
    requires '/' !in a && '/' !in b
    requires a + "/" + x == b + "/" + y
    ensures a == b && x == y
  {
    var whole := a + "/" + x;
    assert whole[|a|] == '/' && whole[|b|] == '/';
    assert forall i | 0 <= i < |b| :: whole[i] == b[i];
    assert |a| == |b|;
    assert a == whole[..|a|] && b == (b + "/" + y)[..|b|];
    assert x == whole[|a| + 1..] && y == (b + "/" + y)[|b| + 1..];
  }

  /** Two-level directories made of slash-free names never contain one another. */
  lemma TwoLevelDisjoint(p: string, a: string, b: string, c: string, d: string)
    requires '/' !in a && '/' !in b && '/' !in c && '/' !in d
    requires Under(a + "/" + b, p) && Under(c + "/" + d, p)
    ensures a == c && b == d
  {
    var restOfFirst := p[|a| + |b| + 2..];
    var restOfSecond := p[|c| + |d| + 2..];
    assert p == a + "/" + (b + "/" + restOfFirst);
    assert p == c + "/" + (d + "/" + restOfSecond);
    FirstSlash(a, b + "/" + restOfFirst, c, d + "/" + restOfSecond);
    FirstSlash(b, restOfFirst, d, restOfSecond);
  }
}
