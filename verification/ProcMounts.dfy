/**
  Is a mount point mounted? The program answers by looking for the escaped
  mount point between two spaces in the text of /proc/mounts. This module
  models that text as the kernel renders it and proves when the search is right.
 */
module ProcMounts {
  import opened Machine
  import opened Texts

  // ---- escaping ---------------------------------------------------------

  function EscapeChar(c: char): string {
    if c == '\\' then "\\134"
    else if c == ' ' then "\\040"
    else if c == '\t' then "\\011"
    else if c == '\n' then "\\012"
    else [c]
  }

  /** procMountsEscape: one pass, replacements are not looked at again. */
  function Escape(s: string): string {
    if s == "" then "" else EscapeChar(s[0]) + Escape(s[1..])
  }

  predicate IsOctal(c: char) {
    '0' <= c <= '7'
  }

  function OctalValue(a: char, b: char, c: char): int {
    (a as int - '0' as int) * 64 + (b as int - '0' as int) * 8 + (c as int - '0' as int)
  }

  /** How a reader of /proc/mounts decodes a field. */
  function Unescape(s: string): string {
    if s == "" then ""
    else if s[0] == '\\' && 4 <= |s| && IsOctal(s[1]) && IsOctal(s[2]) && IsOctal(s[3]) then
      [OctalValue(s[1], s[2], s[3]) as char] + Unescape(s[4..])
    else
      [s[0]] + Unescape(s[1..])
  }

  lemma UnescapesFirst(c: char, rest: string)
    ensures Unescape(EscapeChar(c) + rest) == [c] + Unescape(rest)
  {
    var text := EscapeChar(c) + rest;
    assert text[|EscapeChar(c)|..] == rest;
    if EscapeChar(c) != [c] {
      assert text[0] == '\\' && text[1] == EscapeChar(c)[1]
        && text[2] == EscapeChar(c)[2] && text[3] == EscapeChar(c)[3];
    }
  }

  lemma {:induction false} UnescapeInvertsEscape(s: string)
    ensures Unescape(Escape(s)) == s
    decreases |s|
  {
    if s != "" {
      UnescapesFirst(s[0], Escape(s[1..]));
      UnescapeInvertsEscape(s[1..]);
      assert s == [s[0]] + s[1..];
    }
  }

  lemma EscapeIsInjective(s: string, t: string)
    ensures Escape(s) == Escape(t) <==> s == t
  {
    UnescapeInvertsEscape(s);
    UnescapeInvertsEscape(t);
  }

  predicate IsSpecial(c: char) {
    c == '\\' || c == ' ' || c == '\t' || c == '\n'
  }

  /** What has none of the four characters is left alone. */
  lemma {:induction false} OrdinaryIsKept(s: string)
    ensures Escape(s) == s <==> forall k :: 0 <= k < |s| ==> !IsSpecial(s[k])
    decreases |s|
  {
    if s != "" {
      OrdinaryIsKept(s[1..]);
      EscapeIsLonger(s[1..]);
      assert s == [s[0]] + s[1..];
      assert IsSpecial(s[0]) ==> |Escape(s)| == 4 + |Escape(s[1..])|;
      assert !IsSpecial(s[0]) ==> Escape(s)[1..] == Escape(s[1..]);
      assert forall k :: 1 <= k < |s| ==> s[k] == s[1..][k - 1];
    }
  }

  lemma {:induction false} EscapeIsLonger(s: string)
    ensures |s| <= |Escape(s)|
    decreases |s|
  {
    if s != "" {
      EscapeIsLonger(s[1..]);
    }
  }

  // ---- what the kernel writes -------------------------------------------

  /** A path as a field of /proc/mounts: octal codes for backslash, space, tab and newline, the rest as it is. */
  predicate RenderedAs(path: string, field: string)
    decreases |path|
  {
    if path == "" then field == ""
    else
      match path[0]
      case '\\' => "\\134" <= field && RenderedAs(path[1..], field[4..])
      case ' ' => "\\040" <= field && RenderedAs(path[1..], field[4..])
      case '\t' => "\\011" <= field && RenderedAs(path[1..], field[4..])
      case '\n' => "\\012" <= field && RenderedAs(path[1..], field[4..])
      case c => [c] <= field && RenderedAs(path[1..], field[1..])
  }

  /** The program escapes exactly as the kernel renders. */
  lemma {:induction false} EscapeIsRendering(path: string, field: string)
    ensures RenderedAs(path, field) <==> field == Escape(path)
    decreases |path|
  {
    if path != "" {
      var code, rest := EscapeChar(path[0]), Escape(path[1..]);
      if code <= field {
        EscapeIsRendering(path[1..], field[|code|..]);
        assert field == code + field[|code|..];
      }
      assert field == code + rest ==> field[..|code|] == code;
    }
  }

  predicate IsSeparator(c: char) {
    c == ' ' || c == '\n'
  }

  /** A field of a line: no space, no line end. */
  predicate IsField(s: string) {
    forall k :: 0 <= k < |s| ==> !IsSeparator(s[k])
  }

  lemma {:induction false} EscapedIsField(s: string)
    ensures IsField(Escape(s))
    ensures s != "" && s[0] == '/' ==> Escape(s) != "" && Escape(s)[0] == '/'
    decreases |s|
  {
    if s != "" {
      EscapedIsField(s[1..]);
    }
  }

  // ---- searching --------------------------------------------------------

  /** mountedIn. */
  predicate MountedIn(mountPoint: string, mounts: string) {
    Contains(mounts, " " + Escape(mountPoint) + " ")
  }

  lemma FieldHasNoSpace(field: string, k: nat)
    requires IsField(field)
    ensures k < |field| ==> field[k] != ' '
  {
  }

  /** A field is met at the start of a text exactly if it is the text's first field. */
  lemma FieldAtStart(x: string, field: string, sep: char, rest: string)
    requires IsField(x) && IsField(field) && IsSeparator(sep)
    ensures OccursAt(field + [sep] + rest, x + " ", 0) <==> field == x && sep == ' '
  {
    var text, pattern := field + [sep] + rest, x + " ";
    assert forall k :: 0 <= k < |field| ==> text[k] == field[k];
    assert forall k :: 0 <= k < |x| ==> pattern[k] == x[k];
    if OccursAt(text, pattern, 0) {
      assert forall k :: 0 <= k < |pattern| ==> text[k] == text[0..|pattern|][k] == pattern[k];
      assert text[|x|] == ' ' && text[|field|] == sep;
      assert |x| <= |field|;
      FieldHasNoSpace(field, |x|);
      assert field == x;
    }
    if field == x && sep == ' ' {
      assert text[0..|pattern|] == pattern;
    }
  }

  lemma FoundPastField(x: string, field: string, sep: char, rest: string)
    requires IsField(field) && IsSeparator(sep) && Contains(field + [sep] + rest, " " + x + " ")
    ensures (sep == ' ' && OccursAt(rest, x + " ", 0)) || Contains(rest, " " + x + " ")
  {
    var text, pattern, n := field + [sep] + rest, " " + x + " ", |field| + 1;
    var p :| 0 <= p <= |text| && OccursAt(text, pattern, p);
    assert text[n..] == rest;
    assert forall k :: 0 <= k < |field| ==> text[k] == field[k];
    assert text[p] == text[p..p + |pattern|][0] == ' ';
    if p == |field| {
      assert rest[0..|x| + 1] == text[n..n + |x| + 1] == pattern[1..] == x + " ";
    } else {
      assert rest[p - n..p - n + |pattern|] == text[p..p + |pattern|];
      assert OccursAt(rest, pattern, p - n);
    }
  }

  lemma FoundBehindField(x: string, field: string, sep: char, rest: string)
    requires (sep == ' ' && OccursAt(rest, x + " ", 0)) || Contains(rest, " " + x + " ")
    ensures Contains(field + [sep] + rest, " " + x + " ")
  {
    var text, pattern, n := field + [sep] + rest, " " + x + " ", |field| + 1;
    assert text[n..] == rest;
    if sep == ' ' && OccursAt(rest, x + " ", 0) {
      assert text[|field|..|field| + |pattern|] == [sep] + rest[0..|x| + 1] == pattern;
      assert OccursAt(text, pattern, |field|);
    } else {
      var p :| 0 <= p <= |rest| && OccursAt(rest, pattern, p);
      assert text[n + p..n + p + |pattern|] == rest[p..p + |pattern|];
      assert OccursAt(text, pattern, n + p);
    }
  }

  /** Past its first field, a text is searched as if it began at the second. */
  lemma FieldSkipped(x: string, field: string, sep: char, rest: string)
    requires IsField(field) && IsSeparator(sep)
    ensures
      var next := sep == ' ' && OccursAt(rest, x + " ", 0);
      Contains(field + [sep] + rest, " " + x + " ") <==> next || Contains(rest, " " + x + " ")
  {
    if Contains(field + [sep] + rest, " " + x + " ") {
      FoundPastField(x, field, sep, rest);
    } else if (sep == ' ' && OccursAt(rest, x + " ", 0)) || Contains(rest, " " + x + " ") {
      FoundBehindField(x, field, sep, rest);
    }
  }

  // ---- the rendered table -----------------------------------------------

  /** A line of /proc/mounts with its fields as the kernel writes them, and the mount point it is about. */
  datatype Entry = Entry(mountPoint: string, device: string, field: string, fstype: string, options: string)

  predicate WellFormed(e: Entry) {
    RenderedAs(e.mountPoint, e.field) && IsField(e.device) && IsField(e.fstype) && IsField(e.options)
  }

  function TailOf(tail: string): string {
    "0" + [' '] + ("0" + ['\n'] + tail)
  }

  /** device mountpoint fstype options 0 0 */
  function RenderEntry(e: Entry, tail: string): string {
    e.device + [' '] + (e.field + [' '] + (e.fstype + [' '] + (e.options + [' '] + TailOf(tail))))
  }

  function Render(table: seq<Entry>): string {
    if table == [] then "" else RenderEntry(table[0], Render(table[1..]))
  }

  /** Which of a line's fields the search can mistake for the mount point x. */
  predicate FieldMatches(e: Entry, mountPoint: string) {
    || e.mountPoint == mountPoint
    || e.fstype == Escape(mountPoint)
    || e.options == Escape(mountPoint)
    || Escape(mountPoint) == "0"
  }

  lemma FieldsBeforeTail(x: string, tail: string)
    requires IsField(x)
    ensures Contains(TailOf(tail), " " + x + " ") <==> Contains(tail, " " + x + " ")
    ensures OccursAt(TailOf(tail), x + " ", 0) <==> x == "0"
  {
    FieldSkipped(x, "0", ' ', "0" + ['\n'] + tail);
    FieldAtStart(x, "0", '\n', tail);
    FieldSkipped(x, "0", '\n', tail);
    FieldAtStart(x, "0", ' ', "0" + ['\n'] + tail);
  }

  lemma EntrySearched(e: Entry, mountPoint: string, tail: string)
    requires WellFormed(e)
    ensures MountedIn(mountPoint, RenderEntry(e, tail)) <==> FieldMatches(e, mountPoint) || MountedIn(mountPoint, tail)
  {
    var x := Escape(mountPoint);
    var opts := e.options + [' '] + TailOf(tail);
    var fst := e.fstype + [' '] + opts;
    EscapedIsField(mountPoint);
    EscapedIsField(e.mountPoint);
    EscapeIsRendering(e.mountPoint, e.field);
    EscapeIsInjective(e.mountPoint, mountPoint);
    FieldsBeforeTail(x, tail);
    FieldSkipped(x, e.options, ' ', TailOf(tail));
    FieldAtStart(x, e.options, ' ', TailOf(tail));
    FieldSkipped(x, e.fstype, ' ', opts);
    FieldAtStart(x, e.fstype, ' ', opts);
    FieldSkipped(x, e.field, ' ', fst);
    FieldAtStart(x, e.field, ' ', fst);
    FieldSkipped(x, e.device, ' ', e.field + [' '] + fst);
  }

  /** What the search answers, for every string and every table. */
  lemma {:induction false} SearchIsFieldMatch(table: seq<Entry>, mountPoint: string)
    requires forall i :: 0 <= i < |table| ==> WellFormed(table[i])
    ensures MountedIn(mountPoint, Render(table)) <==> exists i :: 0 <= i < |table| && FieldMatches(table[i], mountPoint)
    decreases |table|
  {
    if table != [] {
      var rest := table[1..];
      SearchIsFieldMatch(rest, mountPoint);
      EntrySearched(table[0], mountPoint, Render(rest));
      if i :| 0 <= i < |rest| && FieldMatches(rest[i], mountPoint) {
        assert table[i + 1] == rest[i];
      }
      if i :| 0 < i < |table| && FieldMatches(table[i], mountPoint) {
        assert rest[i - 1] == table[i];
      }
    }
  }

  predicate StartsWithSlash(s: string) {
    s != "" && s[0] == '/'
  }

  ghost predicate Listed(table: seq<Entry>, mountPoint: string) {
    exists i :: 0 <= i < |table| && table[i].mountPoint == mountPoint
  }

  lemma OnlyMountPointMatches(e: Entry, mountPoint: string)
    requires StartsWithSlash(mountPoint) && !StartsWithSlash(e.fstype) && !StartsWithSlash(e.options)
    ensures FieldMatches(e, mountPoint) <==> e.mountPoint == mountPoint
  {
    EscapedIsField(mountPoint);
  }

  /** For absolute mount points the search is membership in the mount table. */
  lemma MountedInIsMembership(table: seq<Entry>, mountPoint: string)
    requires StartsWithSlash(mountPoint)
    requires forall i :: 0 <= i < |table| ==>
      WellFormed(table[i]) && !StartsWithSlash(table[i].fstype) && !StartsWithSlash(table[i].options)
    ensures MountedIn(mountPoint, Render(table)) <==> Listed(table, mountPoint)
  {
    SearchIsFieldMatch(table, mountPoint);
    forall i | 0 <= i < |table| ensures FieldMatches(table[i], mountPoint) <==> table[i].mountPoint == mountPoint {
      OnlyMountPointMatches(table[i], mountPoint);
    }
  }

  /** StatIn on the rendered table agrees with the machine the lifecycle is modelled on. */
  lemma StatusAgrees(os: Os, v: Vault, table: seq<Entry>)
    requires StartsWithSlash(v.mountPoint)
    requires forall i :: 0 <= i < |table| ==>
      WellFormed(table[i]) && !StartsWithSlash(table[i].fstype) && !StartsWithSlash(table[i].options)
    requires forall mp :: StartsWithSlash(mp) ==> (Listed(table, mp) <==> mp in os.mounts)
    ensures MountedIn(v.mountPoint, Render(table)) <==> IsMounted(os, v)
    ensures v.mapperName in os.mappers || MountedIn(v.mountPoint, Render(table)) <==> IsUnlocked(os, v)
  {
    MountedInIsMembership(table, v.mountPoint);
  }

  lemma PathLikeTypeMisleads(e: Entry, mountPoint: string)
    requires WellFormed(e) && e.fstype == Escape(mountPoint) && e.mountPoint != mountPoint
    ensures MountedIn(mountPoint, Render([e])) && !Listed([e], mountPoint)
  {
    SearchIsFieldMatch([e], mountPoint);
    assert FieldMatches([e][0], mountPoint);
  }

  lemma OrdinaryLine(mountPoint: string, device: string, fstype: string, options: string)
    requires IsField(device) && IsField(fstype) && IsField(options)
    requires forall k :: 0 <= k < |mountPoint| ==> !IsSpecial(mountPoint[k])
    ensures WellFormed(Entry(mountPoint, device, mountPoint, fstype, options))
  {
    OrdinaryIsKept(mountPoint);
    EscapeIsRendering(mountPoint, mountPoint);
  }

  /** The condition on the other fields cannot be dropped: a path among them would be taken for a mount point. */
  lemma PathLikeFieldsMislead()
    ensures
      var e := Entry("/proc", "none", "/proc", "/a", "rw");
      WellFormed(e) && MountedIn("/a", Render([e])) && !Listed([e], "/a")
  {
    OrdinaryLine("/proc", "none", "/a", "rw");
    OrdinaryIsKept("/a");
    PathLikeTypeMisleads(Entry("/proc", "none", "/proc", "/a", "rw"), "/a");
  }
}
