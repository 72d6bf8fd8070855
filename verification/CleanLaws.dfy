/**
  What cleaning a path does to its characters: which pieces go, and exactly
  which paths are left as they are.
 */
module CleanLaws {
  import opened Texts
  import opened Paths

  // ---- rewriting --------------------------------------------------------

  lemma SplitOfTwo(a: string, b: string, c: string)
    ensures Split(a + "/" + b + "/" + c) == Split(a) + Split(b) + Split(c)
  {
    SplitAtSlash(a + "/" + b, c);
    SplitAtSlash(a, b);
  }

  /** The same start, and segments in between after which the walk is where it was. */
  lemma DetourIsDropped(a: string, detour: seq<string>, b: string, p: string)
    requires Split(p) == Split(a) + detour + Split(b) && (Rooted(p) <==> Rooted(a + "/" + b))
    requires
      var rooted := Rooted(p);
      var kept := Resolve(rooted, [], Split(a));
      Resolve(rooted, kept, detour) == kept
    ensures Clean(p) == Clean(a + "/" + b)
  {
    var rooted := Rooted(p);
    SplitAtSlash(a, b);
    ResolveInTwo(rooted, [], Split(a) + detour, Split(b));
    ResolveInTwo(rooted, [], Split(a), detour);
    ResolveInTwo(rooted, [], Split(a), Split(b));
  }

  lemma SplitOfDetour(a: string, s: string, b: string)
    requires NoSlash(s)
    ensures Split(a + "/" + s + "/../" + b) == Split(a) + [s, ".."] + Split(b)
  {
    var start := a + "/" + s;
    SplitOfTwo(start, "..", b);
    assert start + "/" + ".." + "/" + b == start + "/../" + b;
    SplitAtSlash(a, s);
    SplitOfSegment(s);
    SplitOfSegment("..");
    assert [s] + [".."] == [s, ".."];
  }

  lemma StepAndBack(rooted: bool, kept: seq<string>, s: string)
    requires Plain(s)
    ensures Resolve(rooted, kept, [s, ".."]) == kept
  {
    assert Enter(rooted, kept, s) == kept + [s];
    assert Enter(rooted, kept + [s], "..") == kept;
    assert [s, ".."][1..] == [".."] && [".."][1..] == [];
    assert Resolve(rooted, kept + [s], [".."]) == kept;
  }

  /** ".." takes the segment before it back. */
  lemma DotsTakeBack(a: string, s: string, b: string)
    requires Plain(s)
    ensures Clean(a + "/" + s + "/../" + b) == Clean(a + "/" + b)
  {
    var p := a + "/" + s + "/../" + b;
    SplitOfDetour(a, s, b);
    StepAndBack(Rooted(p), Resolve(Rooted(p), [], Split(a)), s);
    DetourIsDropped(a, [s, ".."], b, p);
  }

  /** At the root there is nothing to take back. */
  lemma DotsStayAtRoot(b: string)
    ensures Clean("/../" + b) == Clean("/" + b)
  {
    SplitOfTwo("", "..", b);
    assert "" + "/" + ".." + "/" + b == "/../" + b && "" + "/" + b == "/" + b;
    SplitOfSegment("..");
    assert Resolve(true, [], [""]) == [] && Resolve(true, [], [".."]) == [];
    DetourIsDropped("", [".."], b, "/../" + b);
  }

  /** "." and an empty segment go nowhere. */
  lemma DotIsDropped(a: string, b: string)
    ensures Clean(a + "/./" + b) == Clean(a + "/" + b)
    ensures Clean(a + "//" + b) == Clean(a + "/" + b)
  {
    SplitOfTwo(a, ".", b);
    SplitOfTwo(a, "", b);
    assert a + "/" + "." + "/" + b == a + "/./" + b && a + "/" + "" + "/" + b == a + "//" + b;
    SplitOfSegment(".");
    DetourIsDropped(a, ["."], b, a + "/./" + b);
    DetourIsDropped(a, [""], b, a + "//" + b);
  }

  /** A slash at the end goes, except from the root. */
  lemma LastSlashIsDropped(a: string)
    requires Rooted(a)
    ensures Clean(a + "/") == Clean(a)
  {
    SplitAtSlash(a, "");
    assert a + "/" + "" == a + "/";
    ResolveInTwo(true, [], Split(a), [""]);
  }

  // ---- what is left alone -----------------------------------------------

  /** No empty segment, no "." and no "..", in the middle or at the end. */
  predicate NothingToClean(p: string) {
    !Contains(p + "/", "//") && !Contains(p + "/", "/./") && !Contains(p + "/", "/../")
  }

  /** The segment between two slashes is one behind the first. */
  lemma FoundIsSegment(p: string, s: string)
    requires NoSlash(s) && Contains(p + "/", "/" + s + "/")
    ensures exists i :: 0 < i < |Split(p)| && Split(p)[i] == s
  {
    var a, b := AroundFound(p + "/", "/" + s + "/");
    assert p + "/" + "" == a + "/" + s + "/" + b;
    SplitAtSlash(p, "");
    SplitOfTwo(a, s, b);
    SplitOfSegment(s);
    SplitIsNonEmpty(a);
    SplitIsNonEmpty(b);
    var i := |Split(a)|;
    assert (Split(p) + [""])[i] == (Split(a) + [s] + Split(b))[i] == s;
    assert |Split(p)| + 1 == i + 1 + |Split(b)|;
    assert Split(p)[i] == s;
  }

  lemma {:induction false} FirstSegment(p: string) returns (b: string)
    ensures Split(p) != [] && p + "/" == Split(p)[0] + "/" + b
    decreases |p|
  {
    SplitIsNonEmpty(p);
    if p == "" {
      b := "";
    } else if p[0] == '/' {
      b := p[1..] + "/";
      assert p + "/" == "" + "/" + (p[1..] + "/");
    } else {
      b := FirstSegment(p[1..]);
      assert p + "/" == [p[0]] + (p[1..] + "/");
    }
  }

  lemma {:induction false} SegmentIsFound(p: string, i: nat) returns (a: string, b: string)
    requires 0 < i < |Split(p)|
    ensures p + "/" == a + ("/" + Split(p)[i] + "/") + b
    decreases |p|
  {
    if p[0] == '/' {
      if i == 1 {
        a := "";
        b := FirstSegment(p[1..]);
      } else {
        a, b := SegmentIsFound(p[1..], i - 1);
        a := "/" + a;
      }
      assert p + "/" == "/" + (p[1..] + "/");
    } else {
      a, b := SegmentIsFound(p[1..], i);
      a := [p[0]] + a;
      assert p + "/" == [p[0]] + (p[1..] + "/");
    }
  }

  lemma SegmentOccursIff(p: string, s: string)
    requires NoSlash(s)
    ensures Contains(p + "/", "/" + s + "/") <==> exists i :: 0 < i < |Split(p)| && Split(p)[i] == s
  {
    if Contains(p + "/", "/" + s + "/") {
      FoundIsSegment(p, s);
    } else if i :| 0 < i < |Split(p)| && Split(p)[i] == s {
      var a, b := SegmentIsFound(p, i);
      FoundBetween(a, "/" + s + "/", b);
    }
  }

  lemma NothingToCleanIff(p: string)
    ensures NothingToClean(p) <==> AllPlain(Split(p)[1..])
  {
    SplitIsNonEmpty(p);
    SegmentOccursIff(p, "");
    SegmentOccursIff(p, ".");
    SegmentOccursIff(p, "..");
    assert "/" + "" + "/" == "//" && "/" + "." + "/" == "/./" && "/" + ".." + "/" == "/../";
    assert forall i :: 0 < i < |Split(p)| ==> Split(p)[i] == Split(p)[1..][i - 1];
  }

  /** Cleaning leaves a rooted path alone exactly if it is the root or has nothing to clean. */
  lemma CleanKeepsIff(p: string)
    requires Rooted(p)
    ensures Clean(p) == p <==> p == "/" || NothingToClean(p)
  {
    var segments := Split(p)[1..];
    NothingToCleanIff(p);
    SegmentsArePlain(p);
    SplitOfRooted(Segments(p));
    assert p == "/" + p[1..] && Split(p) == [""] + Split(p[1..]);
    if p == "/" {
      assert Split("/") == ["", ""] && Segments("/") == [] by { assert "/"[1..] == ""; }
    } else {
      if NothingToClean(p) {
        ResolveOfPlain(true, [], segments);
        JoinInvertsSplit(p[1..]);
        assert [] + segments == segments;
        assert Resolve(true, [], Split(p)) == Resolve(true, [], segments);
      }
      assert Clean(p) == p ==> Segments(p) != [];
    }
  }

  lemma {:induction false} JoinInvertsSplit(p: string)
    ensures Join(Split(p)) == p
    decreases |p|
  {
    if p != "" {
      JoinInvertsSplit(p[1..]);
      SplitIsNonEmpty(p[1..]);
      var rest := Split(p[1..]);
      if p[0] == '/' {
        assert ([""] + rest)[1..] == rest;
      } else {
        assert ([[p[0]] + rest[0]] + rest[1..])[1..] == rest[1..];
        assert p == [p[0]] + Join(rest);
      }
    }
  }
}
