/** Which names a tag belongs to. */
module GitTags {
  import opened Strings
  import opened Paths
  import opened GitSync

  /** Tag names built from slash-free tenant, package and artifact names are never shared. */
  lemma TagNameInjective(t1: string, p1: string, a1: string, v1: string, t2: string, p2: string, a2: string, v2: string)
    requires '/' !in t1 && '/' !in p1 && '/' !in a1 && '/' !in t2 && '/' !in p2 && '/' !in a2
    requires TagName(t1, p1, a1, v1) == TagName(t2, p2, a2, v2)
    ensures t1 == t2 && p1 == p2 && a1 == a2 && v1 == v2
  {
    var x1, x2 := t1 + "/" + (p1 + "/" + (a1 + "/" + v1)), t2 + "/" + (p2 + "/" + (a2 + "/" + v2));
    assert x1 == TagName(t1, p1, a1, v1)[|"tenant/"|..] && x2 == TagName(t2, p2, a2, v2)[|"tenant/"|..];
    FirstSlash(t1, p1 + "/" + (a1 + "/" + v1), t2, p2 + "/" + (a2 + "/" + v2));
    FirstSlash(p1, a1 + "/" + v1, p2, a2 + "/" + v2);
    FirstSlash(a1, v1, a2, v2);
  }

  lemma TagParts(t: string, p: string, a: string, v: string)
    ensures TagName(t, p, a, v) == "tenant" + ['/'] + (t + ['/'] + (p + ['/'] + (a + ['/'] + v)))
  {
    assert "tenant/" == "tenant" + ['/'];
  }

  lemma TagPieces(t: string, p: string, a: string, v: string)
    ensures Split(TagName(t, p, a, v), '/') == ["tenant"] + (Split(t, '/') + (Split(p, '/') + (Split(a, '/') + Split(v, '/'))))
  {
    SplitSingle("tenant", '/');
    var av := a + ['/'] + v;
    var pav := p + ['/'] + av;
    var tpav := t + ['/'] + pav;
    TagParts(t, p, a, v);
    hide *;
    SplitConcat(a, v, '/');
    SplitConcat(p, av, '/');
    SplitConcat(t, pav, '/');
    SplitConcat("tenant", tpav, '/');
  }

  predicate SlashFree(t: string, p: string, a: string, v: string) {
    '/' !in t && '/' !in p && '/' !in a && '/' !in v
  }

  /** Nothing else has this tag. */
  ghost predicate OwnTag(t: string, p: string, a: string, v: string) {
    forall t', p', a', v' | TagName(t', p', a', v') == TagName(t, p, a, v) :: t' == t && p' == p && a' == a && v' == v
  }

  lemma SlashFreeIsOwn(t: string, p: string, a: string, v: string)
    requires SlashFree(t, p, a, v)
    ensures OwnTag(t, p, a, v)
  {
    forall t', p', a', v' | TagName(t', p', a', v') == TagName(t, p, a, v) ensures t' == t && p' == p && a' == a && v' == v {
      TagPieces(t, p, a, v);
      TagPieces(t', p', a', v');
      hide TagName, Split;
      OnePieceIff(t, '/'); OnePieceIff(p, '/'); OnePieceIff(a, '/'); OnePieceIff(v, '/');
      OnePieceIff(t', '/'); OnePieceIff(p', '/'); OnePieceIff(a', '/'); OnePieceIff(v', '/');
      TagNameInjective(t, p, a, v, t', p', a', v');
    }
  }

  /** Another artifact or version with the same tag. */
  lemma SharesTag(t: string, p: string, a: string, v: string)
    requires !SlashFree(t, p, a, v)
    ensures !OwnTag(t, p, a, v)
  {
    if '/' in v {
      var x, y := FallsApart(v, '/');
      assert a + "/" + v == (a + "/" + x) + "/" + y;
      assert TagName(t, p, a + "/" + x, y) == TagName(t, p, a, v);
      assert a + "/" + x != a;
    } else if '/' in a {
      var x, y := FallsApart(a, '/');
      assert p + "/" + (a + "/" + v) == (p + "/" + x) + "/" + (y + "/" + v);
      assert TagName(t, p + "/" + x, y, v) == TagName(t, p, a, v);
      assert p + "/" + x != p;
    } else if '/' in p {
      var x, y := FallsApart(p, '/');
      assert t + "/" + (p + "/" + (a + "/" + v)) == (t + "/" + x) + "/" + (y + "/" + (a + "/" + v));
      assert TagName(t + "/" + x, y, a, v) == TagName(t, p, a, v);
      assert t + "/" + x != t;
    } else {
      var x, y := FallsApart(t, '/');
      assert t + "/" + (p + "/" + (a + "/" + v)) == x + "/" + (y + "/" + (p + "/" + (a + "/" + v)));
      assert TagName(x, y, p, a + "/" + v) == TagName(t, p, a, v) by {
        assert p + "/" + (a + "/" + v) == p + "/" + ((a + "/" + v));
      }
      assert x != t;
    }
  }

  /** A tag belongs to one tenant, package, artifact and version exactly when none of the four contains a slash. */
  lemma OwnTagIff(t: string, p: string, a: string, v: string)
    ensures OwnTag(t, p, a, v) <==> SlashFree(t, p, a, v)
  {
    if SlashFree(t, p, a, v) { SlashFreeIsOwn(t, p, a, v); } else { SharesTag(t, p, a, v); }
  }
}
