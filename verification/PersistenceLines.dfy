/** The line editing of src/aegis_agent/executors/persistence_guard.py: comment out matching lines of a file. */
module PersistenceLines {
  import opened Common

  // ---- Python's splitlines(keepends=True) on text read with universal newlines ----

  /** Line boundaries of str.splitlines. Reading translates carriage returns, so none are left to split on. */
  predicate IsBreak(c: char) {
    || '\U{000A}' <= c <= '\U{000C}' || '\U{001C}' <= c <= '\U{001E}' || c == '\U{0085}' || c == '\U{2028}' || c == '\U{2029}'
  }

  /** What read_text returns: carriage returns, alone or before a line feed, become line feeds. */
  function ReadText(raw: string): string {
    if raw == "" then ""
    else if raw[0] != '\r' then [raw[0]] + ReadText(raw[1..])
    else if |raw| > 1 && raw[1] == '\n' then "\n" + ReadText(raw[2..])
    else "\n" + ReadText(raw[1..])
  }

  function LineEnd(t: string): (k: nat)
    requires t != ""
    ensures 1 <= k <= |t|
  {
    if IsBreak(t[0]) || |t| == 1 then 1 else 1 + LineEnd(t[1..])
  }

  function SplitLines(t: string): seq<string> {
    if t == "" then [] else [t[..LineEnd(t)]] + SplitLines(t[LineEnd(t)..])
  }

  function Join(lines: seq<string>): string {
    if lines == [] then "" else lines[0] + Join(lines[1..])
  }

  predicate NoBreak(t: string) {
    forall k :: 0 <= k < |t| ==> !IsBreak(t[k])
  }

  /** One line: text without breaks, then a break unless it is the last line of the file. */
  predicate IsLine(l: string, last: bool) {
    && l != ""
    && NoBreak(l[..|l| - 1])
    && (last || IsBreak(l[|l| - 1]))
  }

  ghost predicate AreLines(lines: seq<string>) {
    forall i :: 0 <= i < |lines| ==> IsLine(lines[i], i == |lines| - 1)
  }

  lemma {:induction false} LineEndIsLine(t: string)
    requires t != ""
    ensures IsLine(t[..LineEnd(t)], LineEnd(t) == |t|)
  {
    if !IsBreak(t[0]) && |t| > 1 {
      LineEndIsLine(t[1..]);
      var k := LineEnd(t[1..]);
      assert t[..k + 1] == [t[0]] + t[1..][..k];
      assert t[..k + 1][..k] == [t[0]] + t[1..][..k - 1];
    }
  }

  lemma FrontLine(l: string, rest: seq<string>)
    requires IsLine(l, rest == []) && AreLines(rest)
    ensures AreLines([l] + rest) && Join([l] + rest) == l + Join(rest)
  {
    hide IsLine;
    assert ([l] + rest)[1..] == rest;
  }

  lemma NoLines()
    ensures AreLines([]) && Join([]) == ""
  {
  }

  /** Splitting loses nothing and yields lines. */
  lemma {:induction false} SplitThenJoin(t: string)
    ensures Join(SplitLines(t)) == t
    ensures AreLines(SplitLines(t))
  {
    hide AreLines, IsLine, Join, LineEnd;
    if t == "" {
      NoLines();
    } else {
      var k := LineEnd(t);
      LineEndIsLine(t);
      SplitThenJoin(t[k..]);
      assert t == t[..k] + t[k..];
      FrontLine(t[..k], SplitLines(t[k..]));
    }
  }

  lemma {:induction false} LineEndOfLine(l: string, rest: string)
    requires IsLine(l, rest == "")
    ensures LineEnd(l + rest) == |l|
  {
    var t := l + rest;
    if |l| == 1 {
      assert t[0] == l[0];
    } else {
      assert !IsBreak(l[..|l| - 1][0]);
      assert t[1..] == l[1..] + rest;
      assert l[1..][..|l| - 2] == l[..|l| - 1][1..];
      LineEndOfLine(l[1..], rest);
    }
  }

  lemma JoinEmpty(lines: seq<string>)
    requires AreLines(lines)
    ensures Join(lines) == "" <==> lines == []
  {
    if lines != [] {
      assert |Join(lines)| >= |lines[0]| > 0;
    }
  }

  /** Joining lines and splitting again returns the same lines. */
  lemma {:induction false} JoinThenSplit(lines: seq<string>)
    requires AreLines(lines)
    ensures SplitLines(Join(lines)) == lines
  {
    if lines != [] {
      var rest := lines[1..];
      assert AreLines(rest) by {
        assert forall i :: 0 <= i < |rest| ==> rest[i] == lines[i + 1];
      }
      JoinThenSplit(rest);
      JoinEmpty(rest);
      var t := Join(lines);
      assert t == lines[0] + Join(rest);
      LineEndOfLine(lines[0], Join(rest));
      assert t[..|lines[0]|] == lines[0] && t[|lines[0]|..] == Join(rest);
    }
  }

  // ---- Which lines are disabled ----

  /** `suspicious` is the pattern for risky shell fragments, `tokens` the evidence linked to the incident. */
  datatype Filter = Filter(suspicious: string -> bool, tokens: seq<string>)

  predicate LineMatches(f: Filter, line: string) {
    f.suspicious(line) || exists tok :: tok in f.tokens && |tok| >= 4 && Contains(Lower(line), Lower(tok))
  }

  /** Neither blank nor a comment. */
  predicate Active(line: string) {
    var s := StripLeft(line);
    s != "" && s[0] != '#'
  }

  predicate Hit(f: Filter, line: string) {
    Active(line) && LineMatches(f, line)
  }

  function Marker(actionId: string, now: int): string {
    "# AEGIS_DISABLED " + actionId + " " + Decimal(now) + " :: "
  }

  /** A comment opener without line breaks, as Marker yields for an id without line breaks. */
  predicate IsMarker(m: string) {
    m != "" && m[0] == '#' && NoBreak(m) && '\r' !in m
  }

  lemma {:induction false} DecimalHasNoBreak(n: nat)
    ensures NoBreak(Digits(n)) && '\r' !in Digits(n)
  {
    if n >= 10 {
      DecimalHasNoBreak(n / 10);
    }
  }

  lemma MarkerIsMarker(actionId: string, now: nat)
    requires NoBreak(actionId) && '\r' !in actionId
    ensures IsMarker(Marker(actionId, now))
  {
    DecimalHasNoBreak(now);
    var m, h := Marker(actionId, now), "# AEGIS_DISABLED ";
    assert m == h + actionId + " " + Decimal(now) + " :: ";
    assert NoBreak(h) && NoBreak(" ") && NoBreak(" :: ");
    assert h[0] == '#' && m[0] == h[0];
  }

  function Marked(f: Filter, marker: string, line: string): string {
    if Hit(f, line) then marker + line else line
  }

  /** The marker of each line by position: the code reads the clock again for every line it marks. */
  type Markers = nat -> string

  ghost predicate AreMarkers(markers: Markers) {
    forall i :: IsMarker(markers(i))
  }

  function MarkAll(f: Filter, markers: Markers, lines: seq<string>): (r: seq<string>)
    ensures |r| == |lines| && forall i :: 0 <= i < |lines| ==> r[i] == Marked(f, markers(i), lines[i])
  {
    if lines == [] then []
    else
      var last := |lines| - 1;
      MarkAll(f, markers, lines[..last]) + [Marked(f, markers(last), lines[last])]
  }

  function Hits(f: Filter, lines: seq<string>): nat {
    if lines == [] then 0 else Hits(f, lines[..|lines| - 1]) + if Hit(f, lines[|lines| - 1]) then 1 else 0
  }

  /** The file after disabling. */
  function Disabled(f: Filter, markers: Markers, text: string): string {
    Join(MarkAll(f, markers, SplitLines(text)))
  }

  lemma {:induction false} JoinAppend(lines: seq<string>, l: string)
    ensures Join(lines + [l]) == Join(lines) + l
  {
    if lines != [] {
      JoinAppend(lines[1..], l);
      assert (lines + [l])[1..] == lines[1..] + [l];
    } else {
      assert lines + [l] == [l];
      assert Join([l]) == l + Join([l][1..]);
    }
  }

  lemma MarkStep(f: Filter, markers: Markers, lines: seq<string>, i: nat)
    requires i < |lines|
    ensures Join(MarkAll(f, markers, lines[..i + 1])) == Join(MarkAll(f, markers, lines[..i])) + Marked(f, markers(i), lines[i])
    ensures Hits(f, lines[..i + 1]) == Hits(f, lines[..i]) + if Hit(f, lines[i]) then 1 else 0
  {
    assert lines[..i + 1][..i] == lines[..i];
    JoinAppend(MarkAll(f, markers, lines[..i]), Marked(f, markers(i), lines[i]));
  }

  /** The editing loop. */
  method DisableLines(f: Filter, markers: Markers, text: string) returns (out: string, changed: nat)
    ensures out == Disabled(f, markers, text)
    ensures changed == Hits(f, SplitLines(text))
  {
    var lines := SplitLines(text);
    out, changed := "", 0;
    for i := 0 to |lines|
      invariant out == Join(MarkAll(f, markers, lines[..i]))
      invariant changed == Hits(f, lines[..i])
    {
      hide Join, MarkAll, LineMatches, Active;
      var line := lines[i];
      MarkStep(f, markers, lines, i);
      if !Active(line) {
        out := out + line;
      } else if LineMatches(f, line) {
        out := out + markers(i) + line;
        changed := changed + 1;
      } else {
        out := out + line;
      }
    }
    assert lines[..|lines|] == lines;
  }

  // ---- What disabling achieves ----

  lemma MarkedIsLine(f: Filter, marker: string, l: string, last: bool)
    requires IsMarker(marker) && IsLine(l, last)
    ensures IsLine(Marked(f, marker, l), last)
    ensures !Hit(f, Marked(f, marker, l))
  {
    if Hit(f, l) {
      var m := marker + l;
      assert m[..|m| - 1] == marker + l[..|l| - 1];
      assert StripLeft(m) == m;
    }
  }

  /** Line by line: the new file has the old lines in the old order, the hit ones behind their markers. */
  lemma LinesCorrespond(f: Filter, markers: Markers, text: string)
    requires AreMarkers(markers)
    ensures SplitLines(Disabled(f, markers, text)) == MarkAll(f, markers, SplitLines(text))
  {
    SplitThenJoin(text);
    var lines := SplitLines(text);
    var marked := MarkAll(f, markers, lines);
    forall i | 0 <= i < |marked| ensures IsLine(marked[i], i == |marked| - 1) {
      MarkedIsLine(f, markers(i), lines[i], i == |lines| - 1);
    }
    JoinThenSplit(marked);
  }

  /** No active line of the new file matches any more. */
  lemma NothingActiveMatches(f: Filter, markers: Markers, text: string)
    requires AreMarkers(markers)
    ensures forall l :: l in SplitLines(Disabled(f, markers, text)) ==> !Hit(f, l)
  {
    hide Hit, IsMarker, IsLine, Disabled, SplitLines, Join, MarkAll;
    LinesCorrespond(f, markers, text);
    SplitThenJoin(text);
    var lines := SplitLines(text);
    forall l | l in MarkAll(f, markers, lines) ensures !Hit(f, l) {
      var i :| 0 <= i < |lines| && MarkAll(f, markers, lines)[i] == l;
      MarkedIsLine(f, markers(i), lines[i], i == |lines| - 1);
    }
  }

  lemma {:induction false} NoHitsNothingChanges(f: Filter, markers: Markers, lines: seq<string>)
    requires forall l :: l in lines ==> !Hit(f, l)
    ensures MarkAll(f, markers, lines) == lines && Hits(f, lines) == 0
  {
    assert forall i :: 0 <= i < |lines| ==> lines[i] in lines;
    if lines != [] {
      NoHitsNothingChanges(f, markers, lines[..|lines| - 1]);
    }
  }

  /** Disabling again with the same evidence, whenever that is, finds nothing and leaves the file as it is. */
  lemma DisablingIsIdempotent(f: Filter, markers: Markers, again: Markers, text: string)
    requires AreMarkers(markers)
    ensures Disabled(f, again, Disabled(f, markers, text)) == Disabled(f, markers, text)
    ensures Hits(f, SplitLines(Disabled(f, markers, text))) == 0
  {
    var once := Disabled(f, markers, text);
    NothingActiveMatches(f, markers, text);
    NoHitsNothingChanges(f, again, SplitLines(once));
    SplitThenJoin(once);
  }

  lemma {:induction false} HitsMeanHit(f: Filter, lines: seq<string>)
    ensures Hits(f, lines) > 0 <==> exists l :: l in lines && Hit(f, l)
  {
    if lines != [] {
      var init, last := lines[..|lines| - 1], lines[|lines| - 1];
      HitsMeanHit(f, init);
      assert lines == init + [last];
    }
  }

  // ---- Carriage returns ----

  predicate NoReturn(t: string) {
    '\r' !in t
  }

  /** Reading takes every carriage return out, and changes nothing else. */
  lemma {:induction false} ReadTextReturns(raw: string)
    ensures NoReturn(ReadText(raw))
    ensures ReadText(raw) == raw <==> NoReturn(raw)
  {
    if raw != "" {
      assert raw == [raw[0]] + raw[1..];
      ReadTextReturns(raw[1..]);
      if |raw| > 1 {
        ReadTextReturns(raw[2..]);
      }
    }
  }

  lemma {:induction false} JoinReturns(lines: seq<string>)
    ensures NoReturn(Join(lines)) <==> forall i :: 0 <= i < |lines| ==> NoReturn(lines[i])
  {
    if lines != [] {
      JoinReturns(lines[1..]);
      assert forall i :: 0 < i < |lines| ==> lines[i] == lines[1..][i - 1];
    }
  }

  lemma DisabledReturns(f: Filter, markers: Markers, text: string)
    requires AreMarkers(markers) && NoReturn(text)
    ensures NoReturn(Disabled(f, markers, text))
  {
    hide Hit;
    SplitThenJoin(text);
    var lines := SplitLines(text);
    JoinReturns(lines);
    var marked := MarkAll(f, markers, lines);
    forall i | 0 <= i < |marked| ensures NoReturn(marked[i]) {
      assert IsMarker(markers(i));
    }
    JoinReturns(marked);
  }

  /** A file in which a line was disabled is not the file it was, as read or as stored. */
  lemma DisabledDiffers(f: Filter, markers: Markers, raw: string)
    requires AreMarkers(markers) && Hits(f, SplitLines(ReadText(raw))) > 0
    ensures Disabled(f, markers, ReadText(raw)) != raw
  {
    hide Hit, IsMarker, Disabled, SplitLines, Hits;
    var text := ReadText(raw);
    var done := Disabled(f, markers, text);
    NothingActiveMatches(f, markers, text);
    HitsMeanHit(f, SplitLines(text));
    ReadTextReturns(raw);
    DisabledReturns(f, markers, text);
  }

  // ---- Taking the markers out again ----

  predicate StartsWith(l: string, marker: string) {
    |marker| <= |l| && l[..|marker|] == marker
  }

  function Unmarked(marker: string, l: string): string {
    if StartsWith(l, marker) then l[|marker|..] else l
  }

  function UnmarkAll(markers: Markers, lines: seq<string>): (r: seq<string>)
    ensures |r| == |lines| && forall i :: 0 <= i < |lines| ==> r[i] == Unmarked(markers(i), lines[i])
  {
    if lines == [] then []
    else
      var last := |lines| - 1;
      UnmarkAll(markers, lines[..last]) + [Unmarked(markers(last), lines[last])]
  }

  /** The file with each line's own marker deleted where the line starts with it. */
  function Restored(markers: Markers, text: string): string {
    Join(UnmarkAll(markers, SplitLines(text)))
  }

  lemma {:induction false} JoinLength(shorter: seq<string>, longer: seq<string>)
    requires |shorter| == |longer| && forall i :: 0 <= i < |longer| ==> |shorter[i]| <= |longer[i]|
    ensures |Join(shorter)| <= |Join(longer)|
    ensures (exists i :: 0 <= i < |longer| && |shorter[i]| < |longer[i]|) ==> |Join(shorter)| < |Join(longer)|
  {
    if longer != [] {
      JoinLength(shorter[1..], longer[1..]);
      if i :| 0 <= i < |longer| && |shorter[i]| < |longer[i]| {
        if i > 0 {
          assert shorter[1..][i - 1] == shorter[i] && longer[1..][i - 1] == longer[i];
        }
      }
    }
  }

  lemma MarkerShortens(l: string, marker: string)
    requires IsMarker(marker)
    ensures StartsWith(l, marker) ==> |marker| <= |l| && |l[|marker|..]| < |l|
  {
  }

  lemma MarkerLineInactive(f: Filter, marker: string, l: string)
    requires IsMarker(marker) && StartsWith(l, marker)
    ensures !Hit(f, l)
  {
    assert l[0] == l[..|marker|][0] == '#';
    assert StripLeft(l) == l;
  }

  /** Marking and unmarking one line gives it back, unless it started with the marker all along. */
  lemma UnmarkOne(f: Filter, marker: string, l: string)
    requires IsMarker(marker)
    ensures Unmarked(marker, Marked(f, marker, l)) == if StartsWith(l, marker) then l[|marker|..] else l
  {
    if StartsWith(l, marker) {
      MarkerLineInactive(f, marker, l);
    } else if Hit(f, l) {
      assert (marker + l)[..|marker|] == marker;
      assert (marker + l)[|marker|..] == l;
    }
  }

  /** No line starts with the very marker it would be given. */
  predicate Unclaimed(markers: Markers, lines: seq<string>) {
    forall i :: 0 <= i < |lines| ==> !StartsWith(lines[i], markers(i))
  }

  /** Deleting the markers recovers the text as it was read exactly when no line started with its marker already. */
  lemma MarkerRemovalRecoversText(f: Filter, markers: Markers, text: string)
    requires AreMarkers(markers)
    ensures Restored(markers, Disabled(f, markers, text)) == text <==> Unclaimed(markers, SplitLines(text))
    ensures NoReturn(text) ==> NoReturn(Restored(markers, Disabled(f, markers, text)))
  {
    hide Hit, Marked, Unmarked, Join, SplitLines, Disabled, UnmarkAll, MarkAll, IsMarker, StartsWith;
    LinesCorrespond(f, markers, text);
    SplitThenJoin(text);
    var lines := SplitLines(text);
    var back := UnmarkAll(markers, MarkAll(f, markers, lines));
    forall i | 0 <= i < |lines|
      ensures StartsWith(lines[i], markers(i)) ==> |back[i]| < |lines[i]|
      ensures !StartsWith(lines[i], markers(i)) ==> back[i] == lines[i]
      ensures NoReturn(lines[i]) ==> NoReturn(back[i])
    {
      UnmarkOne(f, markers(i), lines[i]);
      MarkerShortens(lines[i], markers(i));
    }
    JoinReturns(lines);
    JoinReturns(back);
    if Unclaimed(markers, lines) {
      assert back == lines;
    } else {
      JoinLength(back, lines);
    }
  }

  /** Deleting the markers recovers the file as it was stored exactly when it held no carriage return, which
      reading translates away, and no line of it started with its marker already. */
  lemma MarkerRemovalRecovers(f: Filter, markers: Markers, raw: string)
    requires AreMarkers(markers)
    ensures Restored(markers, Disabled(f, markers, ReadText(raw))) == raw <==>
            NoReturn(raw) && Unclaimed(markers, SplitLines(raw))
  {
    hide Restored, Disabled, Unclaimed, SplitLines, ReadText;
    ReadTextReturns(raw);
    MarkerRemovalRecoversText(f, markers, ReadText(raw));
  }

  // ---- The definitions in literals ----

  lemma {:induction false} SomeHit(f: Filter, lines: seq<string>)
    ensures Hits(f, lines) > 0 <==> exists line :: line in lines && Hit(f, line)
  {
    hide Hit;
    if lines != [] {
      var init, last := lines[..|lines| - 1], lines[|lines| - 1];
      SomeHit(f, init);
      assert lines == init + [last];
    }
  }

  lemma ReadTextOfNothing()
    ensures ReadText("") == ""
  {
  }

  lemma ReadTextSteps(s: string)
    requires s != ""
    ensures var n := if s[0] == '\r' && |s| > 1 && s[1] == '\n' then 2 else 1;
            ReadText(s) == [if s[0] == '\r' then '\n' else s[0]] + ReadText(s[n..])
  {
  }

  lemma {:induction false} ReadTextConcat(a: string, b: string)
    requires a == "" || b == "" || a[|a| - 1] != '\r' || b[0] != '\n'
    ensures ReadText(a + b) == ReadText(a) + ReadText(b)
  {
    hide ReadText;
    if a == "" {
      ReadTextOfNothing();
      assert a + b == b;
    } else {
      var n := if a[0] == '\r' && |a| > 1 && a[1] == '\n' then 2 else 1;
      ReadTextConcat(a[n..], b);
      ReadTextSteps(a);
      ReadTextSteps(a + b);
      assert (a + b)[n..] == a[n..] + b;
      var head, rest := if a[0] == '\r' then '\n' else a[0], ReadText(a[n..]);
      assert [head] + (rest + ReadText(b)) == ([head] + rest) + ReadText(b);
    }
  }

  /** Reading turns a carriage return, a line feed and the two together into one line feed each, keeps every other
      character, and works piece by piece wherever the cut does not separate such a pair. */
  lemma ReadTextInFull(a: string, b: string, c: char)
    ensures ReadText("\r\n") == ReadText("\r") == ReadText("\n") == "\n"
    ensures c != '\r' ==> ReadText([c]) == [c]
    ensures a == "" || b == "" || a[|a| - 1] != '\r' || b[0] != '\n' ==> ReadText(a + b) == ReadText(a) + ReadText(b)
  {
    if a == "" || b == "" || a[|a| - 1] != '\r' || b[0] != '\n' {
      ReadTextConcat(a, b);
    }
  }

  /** The characters that end a line once carriage returns are gone. */
  lemma BreaksInFull(c: char)
    ensures IsBreak(c) <==>
            c in "\n\U{000B}\U{000C}\U{001C}\U{001D}\U{001E}\U{0085}\U{2028}\U{2029}"
  {
  }

  /** A line is hit exactly if it is neither blank nor a comment, and either looks suspicious or holds a token of at
      least four characters in any case. */
  lemma HitInFull(f: Filter, line: string)
    ensures Hit(f, line) <==>
            && StripLeft(line) != "" && StripLeft(line)[0] != '#'
            && (f.suspicious(line) || exists tok :: tok in f.tokens && |tok| >= 4 && Contains(Lower(line), Lower(tok)))
  {
  }
}
