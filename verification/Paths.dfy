/**
  Image paths. Import takes any path and cleans it; create joins one of the
  configured directories with a file name. Both must end in the same normal
  form, because records and reservations compare paths as strings.
 */
module Paths {
  import opened Names

  /** A path is the segments between its slashes. */
  function Split(p: string): seq<string> {
    if p == "" then [""]
    else if p[0] == '/' then [""] + Split(p[1..])
    else
      var rest := Split(p[1..]);
      [[p[0]] + rest[0]] + rest[1..]
  }

  function Join(segments: seq<string>): string {
    if segments == [] then "" else if |segments| == 1 then segments[0] else segments[0] + "/" + Join(segments[1..])
  }

  predicate NoSlash(s: string) {
    forall k :: 0 <= k < |s| ==> s[k] != '/'
  }

  /** A segment that stays when a path is cleaned. */
  predicate Plain(s: string) {
    s != "" && s != "." && s != ".." && NoSlash(s)
  }

  predicate AllPlain(segments: seq<string>) {
    forall i :: 0 <= i < |segments| ==> Plain(segments[i])
  }

  /** "" and "." are dropped; ".." takes the last segment back, and at the root nothing. */
  function Enter(rooted: bool, kept: seq<string>, s: string): seq<string> {
    if s == "" || s == "." then kept
    else if s == ".." then
      if kept != [] && kept[|kept| - 1] != ".." then kept[..|kept| - 1] else if rooted then kept else kept + [s]
    else kept + [s]
  }

  function Resolve(rooted: bool, kept: seq<string>, segments: seq<string>): seq<string>
    decreases |segments|
  {
    if segments == [] then kept else Resolve(rooted, Enter(rooted, kept, segments[0]), segments[1..])
  }

  predicate Rooted(p: string) {
    p != "" && p[0] == '/'
  }

  /** filepath.Clean, lexically. */
  function Clean(p: string): string {
    var segments := Resolve(Rooted(p), [], Split(p));
    if Rooted(p) then "/" + Join(segments) else if segments == [] then "." else Join(segments)
  }

  /** The segments of a cleaned rooted path. */
  function Segments(p: string): seq<string> {
    Resolve(true, [], Split(p))
  }

  // ---- where a path leads -----------------------------------------------

  /** A place is the names on the way from the root; the root is its own parent. */
  function Parent(place: seq<string>): seq<string> {
    if place == [] then [] else place[..|place| - 1]
  }

  function Go(place: seq<string>, name: string): seq<string> {
    match name
    case "" => place
    case "." => place
    case ".." => Parent(place)
    case _ => place + [name]
  }

  /** Reads a path character by character; `name` is what was read since the last slash. */
  function WalkFrom(place: seq<string>, name: string, p: string): seq<string>
    decreases |p|
  {
    if p == "" then Go(place, name)
    else if p[0] == '/' then WalkFrom(Go(place, name), "", p[1..])
    else WalkFrom(place, name + [p[0]], p[1..])
  }

  /** The place a rooted path leads to where nothing is a symbolic link. */
  function Walk(p: string): seq<string> {
    WalkFrom([], "", p)
  }

  // ---- splitting and joining --------------------------------------------

  lemma {:induction false} SplitIsNonEmpty(p: string)
    ensures Split(p) != [] && forall i :: 0 <= i < |Split(p)| ==> NoSlash(Split(p)[i])
  {
    if p != "" {
      SplitIsNonEmpty(p[1..]);
    }
  }

  lemma {:induction false} SplitAtSlash(a: string, b: string)
    ensures Split(a + "/" + b) == Split(a) + Split(b)
    decreases |a|
  {
    var p := a + "/" + b;
    if a == "" {
      assert p[1..] == b;
    } else {
      assert p[1..] == a[1..] + "/" + b;
      SplitAtSlash(a[1..], b);
      SplitIsNonEmpty(a[1..]);
    }
  }

  lemma {:induction false} SplitOfSegment(s: string)
    requires NoSlash(s)
    ensures Split(s) == [s]
  {
    if s != "" {
      SplitOfSegment(s[1..]);
      assert s == [s[0]] + s[1..];
    }
  }

  lemma {:induction false} SplitInvertsJoin(segments: seq<string>)
    requires segments != [] && forall i :: 0 <= i < |segments| ==> NoSlash(segments[i])
    ensures Split(Join(segments)) == segments
    decreases |segments|
  {
    if |segments| == 1 {
      SplitOfSegment(segments[0]);
    } else {
      SplitInvertsJoin(segments[1..]);
      SplitAtSlash(segments[0], Join(segments[1..]));
      SplitOfSegment(segments[0]);
      assert segments == [segments[0]] + segments[1..];
    }
  }

  lemma {:induction false} ResolveKeepsPlain(kept: seq<string>, segments: seq<string>)
    requires AllPlain(kept) && forall i :: 0 <= i < |segments| ==> NoSlash(segments[i])
    ensures AllPlain(Resolve(true, kept, segments))
    decreases |segments|
  {
    if segments != [] {
      ResolveKeepsPlain(Enter(true, kept, segments[0]), segments[1..]);
    }
  }

  /** Plain segments resolve to themselves. */
  lemma {:induction false} ResolveOfPlain(rooted: bool, kept: seq<string>, segments: seq<string>)
    requires AllPlain(segments)
    ensures Resolve(rooted, kept, segments) == kept + segments
    decreases |segments|
  {
    if segments == [] {
      assert kept + segments == kept;
    } else {
      ResolveOfPlain(rooted, kept + [segments[0]], segments[1..]);
      assert kept + [segments[0]] + segments[1..] == kept + segments;
    }
  }

  lemma {:induction false} ResolveInTwo(rooted: bool, kept: seq<string>, first: seq<string>, second: seq<string>)
    ensures Resolve(rooted, kept, first + second) == Resolve(rooted, Resolve(rooted, kept, first), second)
    decreases |first|
  {
    if first == [] {
      assert first + second == second;
    } else {
      assert (first + second)[0] == first[0] && (first + second)[1..] == first[1..] + second;
      ResolveInTwo(rooted, Enter(rooted, kept, first[0]), first[1..], second);
    }
  }

  // ---- cleaned paths ----------------------------------------------------

  /** A rooted path that cleaning leaves alone. */
  predicate Normal(p: string) {
    Rooted(p) && Clean(p) == p
  }

  lemma SegmentsArePlain(p: string)
    ensures AllPlain(Segments(p))
  {
    SplitIsNonEmpty(p);
    ResolveKeepsPlain([], Split(p));
  }

  lemma SplitOfRooted(segments: seq<string>)
    requires AllPlain(segments)
    ensures Split("/" + Join(segments)) == [""] + (if segments == [] then [""] else segments)
    ensures Segments("/" + Join(segments)) == segments
  {
    SplitAtSlash("", Join(segments));
    assert "" + "/" + Join(segments) == "/" + Join(segments);
    if segments == [] {
      assert Split("") == [""] && [""][1..] == [] && ["", ""][1..] == [""];
      assert Resolve(true, [], ["", ""]) == Resolve(true, [], [""]) == [];
    } else {
      SplitInvertsJoin(segments);
      ResolveOfPlain(true, [], segments);
      assert ([""] + segments)[1..] == segments == [] + segments;
      assert Resolve(true, [], [""] + segments) == Resolve(true, [], segments);
    }
  }

  /** A walk goes through the segments of a path. */
  lemma {:induction false} WalkOfSplit(place: seq<string>, name: string, p: string)
    requires AllPlain(place) && NoSlash(name)
    ensures Split(p) != [] && WalkFrom(place, name, p) == Resolve(true, place, [name + Split(p)[0]] + Split(p)[1..])
    decreases |p|
  {
    SplitIsNonEmpty(p);
    if p == "" {
      assert name + "" == name && [name] + [] == [name];
      assert Resolve(true, place, [name]) == Enter(true, place, name);
    } else {
      var rest := Split(p[1..]);
      if p[0] == '/' {
        WalkOfSplit(Go(place, name), "", p[1..]);
        assert name + "" == name && "" + rest[0] == rest[0] && [rest[0]] + rest[1..] == rest;
        assert ([name] + rest)[1..] == rest;
      } else {
        WalkOfSplit(place, name + [p[0]], p[1..]);
        assert name + [p[0]] + rest[0] == name + ([p[0]] + rest[0]);
      }
    }
  }

  lemma WalkIsSegments(p: string)
    ensures Walk(p) == Segments(p) && AllPlain(Walk(p))
  {
    WalkOfSplit([], "", p);
    SegmentsArePlain(p);
    assert "" + Split(p)[0] == Split(p)[0] && [Split(p)[0]] + Split(p)[1..] == Split(p);
  }

  lemma CleanResolves(p: string)
    requires Rooted(p)
    ensures Normal(Clean(p)) && Segments(Clean(p)) == Segments(p)
  {
    SegmentsArePlain(p);
    SplitOfRooted(Segments(p));
  }

  /**
    Cleaning leaves a path that leads to the same place and is not changed by
    cleaning again, and two paths clean to the same string exactly if they lead
    to the same place.
   */
  lemma CleanIsCanonical(p: string, q: string)
    requires Rooted(p) && Rooted(q)
    ensures Normal(Clean(p)) && Walk(Clean(p)) == Walk(p)
    ensures Clean(p) == Clean(q) <==> Walk(p) == Walk(q)
  {
    CleanResolves(p);
    CleanResolves(q);
    WalkIsSegments(p);
    WalkIsSegments(q);
    WalkIsSegments(Clean(p));
  }

  /** Strictly below a directory: the way leads through it and goes on. */
  predicate Below(p: string, dir: string) {
    Walk(dir) < Walk(p)
  }

  lemma NormalSplits(p: string)
    requires Normal(p) && p != "/"
    ensures Split(p) == [""] + Walk(p) && Walk(p) != []
  {
    WalkIsSegments(p);
    SplitOfRooted(Walk(p));
  }

  lemma PrefixIsBelow(p: string, dir: string, rest: string)
    requires Normal(p) && Normal(dir) && dir != "/" && p == dir + "/" + rest
    ensures Below(p, dir)
  {
    NormalSplits(dir);
    NormalSplits(p);
    SplitAtSlash(dir, rest);
    SplitIsNonEmpty(rest);
    LongerGoesOn(Walk(dir), Split(rest), Walk(p));
  }

  lemma LongerGoesOn(d: seq<string>, rest: seq<string>, c: seq<string>)
    requires rest != [] && [""] + c == [""] + d + rest
    ensures d < c
  {
    assert c == ([""] + c)[1..] && d + rest == ([""] + d + rest)[1..];
  }

  // ---- pathInStorageDir -------------------------------------------------

  predicate HasPrefix(s: string, prefix: string) {
    prefix <= s
  }

  function TrimSlash(dir: string): string {
    if dir != "" && dir[|dir| - 1] == '/' then dir[..|dir| - 1] else dir
  }

  predicate Matches(cleaned: string, dir: string) {
    TrimSlash(dir) != "" && HasPrefix(cleaned, TrimSlash(dir) + "/")
  }

  predicate IsFirstMatch(cleaned: string, dirs: seq<string>, i: nat) {
    i < |dirs| && Matches(cleaned, dirs[i]) && forall k :: 0 <= k < i ==> !Matches(cleaned, dirs[k])
  }

  /** within[i]: the file, links resolved, is still inside dirs[i], or could not be resolved. */
  method PathInStorageDir(p: string, dirs: seq<string>, within: seq<bool>) returns (cleaned: string, ok: bool)
    requires |within| == |dirs|
    ensures cleaned == Clean(p)
    ensures ok <==> exists i: nat :: IsFirstMatch(cleaned, dirs, i) && within[i]
  {
    cleaned := Clean(p);
    for i := 0 to |dirs|
      invariant forall k :: 0 <= k < i ==> !Matches(cleaned, dirs[k])
    {
      var dir := TrimSlash(dirs[i]);
      if dir != "" && HasPrefix(cleaned, dir + "/") {
        assert IsFirstMatch(cleaned, dirs, i);
        return cleaned, within[i];
      }
    }
    return cleaned, false;
  }

  lemma MatchIsRooted(p: string, dir: string)
    requires Normal(dir) && Matches(Clean(p), dir)
    ensures Rooted(Clean(p)) && Rooted(p)
  {
    assert Clean(p)[0] == TrimSlash(dir)[0] == '/';
    if !Rooted(p) {
      RelativeCleansRelative(p);
    }
  }

  lemma RelativeCleansRelative(p: string)
    requires !Rooted(p)
    ensures !Rooted(Clean(p))
  {
    var segments := Resolve(false, [], Split(p));
    SplitIsNonEmpty(p);
    RelativeStaysRelative([], Split(p));
    if segments != [] {
      assert segments[0] in segments;
      assert Join(segments)[0] == segments[0][0];
    }
  }

  lemma {:induction false} RelativeStaysRelative(kept: seq<string>, segments: seq<string>)
    requires forall s :: s in kept ==> s != "" && NoSlash(s)
    requires forall i :: 0 <= i < |segments| ==> NoSlash(segments[i])
    ensures forall s :: s in Resolve(false, kept, segments) ==> s != "" && NoSlash(s)
    decreases |segments|
  {
    if segments != [] {
      var next := Enter(false, kept, segments[0]);
      assert NoSlash(segments[0]);
      RelativeStaysRelative(next, segments[1..]);
      assert Resolve(false, kept, segments) == Resolve(false, next, segments[1..]);
    }
  }

  lemma MatchIsBelow(cleaned: string, dir: string)
    requires Normal(cleaned) && Normal(dir) && Matches(cleaned, dir)
    ensures Below(cleaned, dir)
  {
    NormalHasNoTail(dir);
    var rest := cleaned[|dir| + 1..];
    assert cleaned == dir + "/" + rest;
    PrefixIsBelow(cleaned, dir, rest);
  }

  lemma {:induction false} JoinInTwo(first: seq<string>, second: seq<string>)
    requires first != [] && second != []
    ensures Join(first + second) == Join(first) + "/" + Join(second)
    decreases |first|
  {
    assert (first + second)[0] == first[0] && (first + second)[1..] == first[1..] + second;
    if |first| == 1 {
      assert first[1..] + second == second;
    } else {
      JoinInTwo(first[1..], second);
      assert first[0] + "/" + Join(first[1..]) + "/" + Join(second)
        == first[0] + "/" + (Join(first[1..]) + "/" + Join(second));
    }
  }

  lemma BelowMatches(cleaned: string, dir: string)
    requires Normal(cleaned) && Normal(dir) && dir != "/" && Below(cleaned, dir)
    ensures Matches(cleaned, dir)
  {
    NormalSplits(dir);
    NormalHasNoTail(dir);
    WalkIsSegments(cleaned);
    WalkIsSegments(dir);
    JoinedIsBelow(Walk(dir), Walk(cleaned));
  }

  lemma JoinedIsBelow(d: seq<string>, c: seq<string>)
    requires d < c && d != []
    ensures "/" + Join(d) + "/" <= "/" + Join(c)
  {
    var rest := c[|d|..];
    JoinInTwo(d, rest);
    assert c == d + rest;
    assert "/" + Join(c) == "/" + Join(d) + "/" + Join(rest);
  }

  /** A directory takes exactly the paths that lead strictly below it, however they are spelt. */
  lemma MatchesIffBelow(p: string, dir: string)
    requires Normal(dir)
    ensures Matches(Clean(p), dir) <==> Rooted(p) && dir != "/" && Below(p, dir)
  {
    if Rooted(p) {
      CleanIsCanonical(p, p);
      if dir != "/" && Below(p, dir) {
        BelowMatches(Clean(p), dir);
      } else if Matches(Clean(p), dir) {
        MatchIsBelow(Clean(p), dir);
      }
    } else if Matches(Clean(p), dir) {
      MatchIsRooted(p, dir);
    }
  }

  /** What a match is, character by character; a slash at the end of the directory makes no difference. */
  lemma MatchesIff(cleaned: string, dir: string)
    requires dir == "" || dir[|dir| - 1] != '/'
    ensures Matches(cleaned, dir) <==> 0 < |dir| < |cleaned| && cleaned[..|dir|] == dir && cleaned[|dir|] == '/'
    ensures Matches(cleaned, dir + "/") <==> Matches(cleaned, dir)
  {
    assert (dir + "/")[..|dir|] == dir;
    if 0 < |dir| < |cleaned| && cleaned[..|dir|] == dir && cleaned[|dir|] == '/' {
      assert cleaned[..|dir| + 1] == dir + "/";
    }
  }

  /**
    An accepted path and the cleaned one lead to the same place, strictly below
    the directory that accepted it; the cleaned one says so without a "..".
   */
  lemma AcceptedIsBelow(p: string, dirs: seq<string>, i: nat)
    requires forall k :: 0 <= k < |dirs| ==> Normal(dirs[k])
    requires IsFirstMatch(Clean(p), dirs, i)
    ensures Walk(Clean(p)) == Walk(p) && Below(p, dirs[i]) && Below(Clean(p), dirs[i])
    ensures Normal(Clean(p)) && Split(Clean(p)) == [""] + Walk(p) && AllPlain(Walk(p))
  {
    MatchesIffBelow(p, dirs[i]);
    CleanIsCanonical(p, p);
    WalkIsSegments(p);
    SplitOfRooted(Walk(p));
  }

  /** Only the root ends in a slash. */
  lemma NormalHasNoTail(dir: string)
    requires Normal(dir)
    ensures dir == "/" || TrimSlash(dir) == dir
  {
    var d := Segments(dir);
    SegmentsArePlain(dir);
    SplitOfRooted(d);
    if d != [] {
      LastOfJoin(d);
      assert dir[|dir| - 1] == Join(d)[|Join(d)| - 1];
    }
  }

  lemma {:induction false} LastOfJoin(segments: seq<string>)
    requires AllPlain(segments) && segments != []
    ensures Join(segments) != "" && Join(segments)[|Join(segments)| - 1] != '/'
    decreases |segments|
  {
    if |segments| > 1 {
      LastOfJoin(segments[1..]);
    }
  }

  // ---- the image of a create --------------------------------------------

  /** filepath.Join of a storage directory and <name>.img. */
  function ImagePath(dir: string, name: string): string {
    Clean(dir + "/" + (name + ".img"))
  }

  lemma ValidNameIsSegment(name: string)
    requires IsValidName(name)
    ensures Plain(name + ".img")
  {
    var file := name + ".img";
    assert file[0] == name[0];
    assert forall k :: 0 <= k < |name| ==> file[k] == name[k];
  }

  lemma ImageIsBelowDir(dir: string, name: string)
    requires Normal(dir) && IsValidName(name)
    ensures Normal(ImagePath(dir, name)) && Walk(ImagePath(dir, name)) == Walk(dir) + [name + ".img"]
  {
    var file := name + ".img";
    var p := dir + "/" + file;
    ValidNameIsSegment(name);
    assert p[0] == dir[0] == '/';
    CleanIsCanonical(p, p);
    WalkIsSegments(p);
    WalkIsSegments(dir);
    SplitAtSlash(dir, file);
    SplitOfSegment(file);
    ResolveInTwo(true, [], Split(dir), [file]);
    ResolveOfPlain(true, Segments(dir), [file]);
  }

  /** Different names or directories never give the same image. */
  lemma ImagesAreDistinct(dir: string, name: string, dir': string, name': string)
    requires Normal(dir) && Normal(dir') && IsValidName(name) && IsValidName(name')
    ensures ImagePath(dir, name) == ImagePath(dir', name') <==> dir == dir' && name == name'
  {
    ImageIsBelowDir(dir, name);
    ImageIsBelowDir(dir', name');
    if ImagePath(dir, name) == ImagePath(dir', name') {
      var d, d' := Walk(dir), Walk(dir');
      assert (d + [name + ".img"])[|d|] == (d' + [name' + ".img"])[|d'|];
      assert (name + ".img")[..|name|] == name && (name' + ".img")[..|name'|] == name';
      assert d == (d + [name + ".img"])[..|d|] == (d' + [name' + ".img"])[..|d'|] == d';
      CleanIsCanonical(dir, dir');
    }
  }

  /** Import and create agree on what is the same image, however the import spells it. */
  lemma ImportSeesCreate(p: string, dir: string, name: string)
    requires Rooted(p) && Normal(dir) && IsValidName(name)
    ensures Clean(p) == ImagePath(dir, name) <==> Walk(p) == Walk(dir) + [name + ".img"]
  {
    ImageIsBelowDir(dir, name);
    CleanIsCanonical(p, ImagePath(dir, name));
  }
}
