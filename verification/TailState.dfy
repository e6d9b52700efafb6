/** src/aegis_agent/collectors/tail_state.py: following a growing log with bounded reads. Followed logs are
    ASCII text without carriage returns, so a text offset is a byte offset. */
module TailState {
  import opened Common
  import opened PersistenceLines

  datatype FirstRun = Full | Eof | Tail

  /** One line without its line break, as str.splitlines() returns it. */
  function Chomp(l: string): string {
    if l != "" && IsBreak(l[|l| - 1]) then l[..|l| - 1] else l
  }

  function ChompAll(lines: seq<string>): (r: seq<string>)
    ensures |r| == |lines|
  {
    if lines == [] then [] else [Chomp(lines[0])] + ChompAll(lines[1..])
  }

  function Lines(text: string): seq<string> {
    ChompAll(SplitLines(text))
  }

  /** Where a read starts: the stored offset, back to 0 after a truncation, or the first-run position. */
  function StartOf(stored: Option<nat>, size: nat, firstRun: FirstRun, maxBytes: nat): nat {
    match stored
    case Some(offset) => if offset > size then 0 else offset
    case None => if firstRun.Tail? && size > maxBytes then size - maxBytes else 0
  }

  function EndOf(start: nat, size: nat, maxBytes: nat): nat {
    if start + maxBytes <= size then start + maxBytes else size
  }

  class TailReader {
    var offsets: map<string, nat>

    constructor ()
      ensures offsets == map[]
    {
      offsets := map[];
    }

    /** read_lines of one file; `content` is None when the file does not exist. */
    method ReadLines(path: string, content: Option<string>, follow: bool, firstRun: FirstRun, maxBytes: nat) returns (lines: seq<string>)
      requires content.Some? && follow ==> NoReturn(content.value)
      modifies this
      ensures content.None? ==> lines == [] && offsets == old(offsets)
      ensures content.Some? && !follow ==> lines == Lines(ReadText(content.value)) && offsets == old(offsets)
      ensures content.Some? && follow && path !in old(offsets) && firstRun.Eof? ==>
                lines == [] && offsets == old(offsets)[path := |content.value|]
      ensures content.Some? && follow && !(path !in old(offsets) && firstRun.Eof?) ==>
                var stored := if path in old(offsets) then Some(old(offsets)[path]) else None;
                var start := StartOf(stored, |content.value|, firstRun, maxBytes);
                var end := EndOf(start, |content.value|, maxBytes);
                start <= end <= |content.value| && lines == Lines(content.value[start..end]) && offsets == old(offsets)[path := end]
    {
      if content.None? {
        return [];
      }
      var text := content.value;
      var size := |text|;
      if !follow {
        return Lines(ReadText(text));
      }
      var start := 0;
      if path !in offsets {
        if firstRun.Eof? {
          offsets := offsets[path := size];
          return [];
        }
        start := if firstRun.Tail? then Max(0, size - maxBytes) else 0;
      } else {
        start := offsets[path];
        if start > size {
          start := 0;
        }
      }
      var end := Min(start + maxBytes, size);
      offsets := offsets[path := end];
      lines := Lines(text[start..end]);
    }
  }

  // ---- Following one growing file ----

  datatype Event = Append(text: string) | Read

  /** The file, the offset of the follower, and the chunks it has returned. */
  datatype Follower = Follower(content: string, offset: nat, chunks: seq<string>)

  function Flat(chunks: seq<string>): string {
    if chunks == [] then "" else Flat(chunks[..|chunks| - 1]) + chunks[|chunks| - 1]
  }

  function Follow(f: Follower, e: Event, maxBytes: nat): Follower {
    match e
    case Append(text) => f.(content := f.content + text)
    case Read =>
      var start := StartOf(Some(f.offset), |f.content|, Full, maxBytes);
      var end := EndOf(start, |f.content|, maxBytes);
      f.(offset := end, chunks := f.chunks + [f.content[start..end]])
  }

  function FollowAll(f: Follower, events: seq<Event>, maxBytes: nat): Follower
    decreases |events|
  {
    if events == [] then f else FollowAll(Follow(f, events[0], maxBytes), events[1..], maxBytes)
  }

  /** The chunks are exactly the file from `start` to the offset. */
  ghost predicate ExactlyOnce(f: Follower, start: nat) {
    start <= f.offset <= |f.content| && Flat(f.chunks) == f.content[start..f.offset]
  }

  /** Over any interleaving of appends and bounded reads no byte is lost or repeated. */
  lemma {:induction false} NothingLostOrRepeated(f: Follower, events: seq<Event>, maxBytes: nat, start: nat)
    requires ExactlyOnce(f, start)
    ensures ExactlyOnce(FollowAll(f, events, maxBytes), start)
    ensures f.content <= FollowAll(f, events, maxBytes).content
    decreases |events|
  {
    if events != [] {
      var g := Follow(f, events[0], maxBytes);
      if events[0].Append? {
        assert g.content[start..g.offset] == f.content[start..f.offset];
      } else {
        assert g.chunks[..|g.chunks| - 1] == f.chunks;
        assert f.content[start..g.offset] == f.content[start..f.offset] + f.content[f.offset..g.offset];
      }
      NothingLostOrRepeated(g, events[1..], maxBytes, start);
    }
  }

  function Reads(k: nat): seq<Event> {
    seq(k, _ => Read)
  }

  /** k reads advance by k chunks, up to the end of the file: ceil(backlog / maxBytes) of them catch up. */
  lemma {:induction false} ReadsCatchUp(f: Follower, maxBytes: nat, k: nat)
    requires f.offset <= |f.content|
    ensures FollowAll(f, Reads(k), maxBytes).offset == Min(f.offset + k * maxBytes, |f.content|)
    ensures FollowAll(f, Reads(k), maxBytes).content == f.content
    decreases k
  {
    if k > 0 {
      assert Reads(k)[1..] == Reads(k - 1) && Reads(k)[0] == Read;
      ReadsCatchUp(Follow(f, Read, maxBytes), maxBytes, k - 1);
      assert k * maxBytes == maxBytes + (k - 1) * maxBytes;
    }
  }

  lemma {:induction false} MoreCopies(a: nat, b: nat, m: nat)
    requires a <= b
    ensures a * m + (b - a) * m == b * m && a * m <= b * m
  {
  }

  lemma CatchUpCount(backlog: nat, maxBytes: nat, k: nat, q: nat)
    requires maxBytes >= 1 && q * maxBytes <= backlog + maxBytes - 1 < q * maxBytes + maxBytes
    ensures k * maxBytes >= backlog <==> k >= q
  {
    if k >= q {
      MoreCopies(q, k, maxBytes);
    } else {
      MoreCopies(k, q, maxBytes);
      MoreCopies(1, q - k, maxBytes);
    }
  }

  lemma Quotient(n: nat, m: nat)
    requires m >= 1
    ensures (n / m) * m <= n < (n / m) * m + m
  {
  }

  /** Exactly ceil(backlog / maxBytes) reads are needed to reach the end of the file. */
  lemma CatchesUpExactly(f: Follower, maxBytes: nat, k: nat)
    requires f.offset <= |f.content| && maxBytes >= 1
    ensures FollowAll(f, Reads(k), maxBytes).offset == |f.content| <==>
            k >= (|f.content| - f.offset + maxBytes - 1) / maxBytes
  {
    ReadsCatchUp(f, maxBytes, k);
    var backlog := |f.content| - f.offset;
    Quotient(backlog + maxBytes - 1, maxBytes);
    CatchUpCount(backlog, maxBytes, k, (backlog + maxBytes - 1) / maxBytes);
  }

  // ---- Lines across chunks ----

  predicate EndsWithBreak(t: string) {
    t == "" || IsBreak(t[|t| - 1])
  }

  lemma {:induction false} JoinConcat(x: seq<string>, y: seq<string>)
    ensures Join(x + y) == Join(x) + Join(y)
  {
    if x == [] {
      assert x + y == y;
    } else {
      assert (x + y)[1..] == x[1..] + y;
      JoinConcat(x[1..], y);
    }
  }

  lemma JoinOne(l: string)
    ensures Join([l]) == l
  {
    assert [l][1..] == [];
  }

  /** The text ends the way its last line does. */
  lemma {:induction false} LastLine(lines: seq<string>)
    requires AreLines(lines) && lines != []
    ensures Join(lines) != "" && Join(lines)[|Join(lines)| - 1] == lines[|lines| - 1][|lines[|lines| - 1]| - 1]
  {
    if |lines| == 1 {
      JoinOne(lines[0]);
      assert lines == [lines[0]];
    } else {
      assert forall i :: 0 <= i < |lines| - 1 ==> lines[1..][i] == lines[i + 1];
      LastLine(lines[1..]);
    }
  }

  lemma CleanCut(la: seq<string>, lb: seq<string>)
    requires AreLines(la) && AreLines(lb) && la != [] && EndsWithBreak(Join(la))
    ensures SplitLines(Join(la) + Join(lb)) == la + lb
  {
    LastLine(la);
    JoinConcat(la, lb);
    JoinThenSplit(la + lb);
  }

  /** The lines of two texts with the last line of the first running on into the second. */
  function Merged(la: seq<string>, lb: seq<string>): seq<string>
    requires la != [] && lb != []
  {
    la[..|la| - 1] + [la[|la| - 1] + lb[0]] + lb[1..]
  }

  lemma TornIsLine(head: string, tail: string, last: bool)
    requires IsLine(head, true) && !IsBreak(head[|head| - 1]) && IsLine(tail, last)
    ensures IsLine(head + tail, last)
  {
    var l := head + tail;
    assert NoBreak(head) by {
      assert head == head[..|head| - 1] + [head[|head| - 1]];
    }
    assert l[..|l| - 1] == head + tail[..|tail| - 1];
  }

  lemma MergedAreLines(la: seq<string>, lb: seq<string>)
    requires AreLines(la) && AreLines(lb) && la != [] && lb != [] && !IsBreak(la[|la| - 1][|la[|la| - 1]| - 1])
    ensures AreLines(Merged(la, lb))
  {
    TornIsLine(la[|la| - 1], lb[0], |lb| == 1);
    hide IsLine;
    var all := Merged(la, lb);
    forall i | 0 <= i < |all| ensures IsLine(all[i], i == |all| - 1) {
      if i < |la| - 1 {
        assert all[i] == la[i];
      } else if i >= |la| {
        assert all[i] == lb[i - |la| + 1];
      }
    }
  }

  lemma MergedJoin(la: seq<string>, lb: seq<string>)
    requires la != [] && lb != []
    ensures Join(Merged(la, lb)) == Join(la) + Join(lb)
  {
    var init, last, tail := la[..|la| - 1], la[|la| - 1], lb[1..];
    JoinConcat(init + [last + lb[0]], tail);
    JoinConcat(init, [last + lb[0]]);
    JoinOne(last + lb[0]);
    JoinConcat(init, [last]);
    JoinOne(last);
    assert la == init + [last];
    calc {
      Join(Merged(la, lb));
      Join(init) + (last + lb[0]) + Join(tail);
      (Join(init) + last) + (lb[0] + Join(tail));
      Join(la) + Join(lb);
    }
  }

  lemma TornCut(la: seq<string>, lb: seq<string>)
    requires AreLines(la) && AreLines(lb) && la != [] && lb != [] && !EndsWithBreak(Join(la))
    ensures |SplitLines(Join(la) + Join(lb))| == |la| + |lb| - 1
  {
    LastLine(la);
    MergedAreLines(la, lb);
    MergedJoin(la, lb);
    JoinThenSplit(Merged(la, lb));
  }

  /** Splitting in two keeps the lines when the cut is at a line break, and tears one line in two otherwise. */
  lemma SplitInTwo(a: string, b: string)
    ensures EndsWithBreak(a) || b == "" ==> SplitLines(a + b) == SplitLines(a) + SplitLines(b)
    ensures !EndsWithBreak(a) && b != "" ==> |SplitLines(a + b)| == |SplitLines(a)| + |SplitLines(b)| - 1
  {
    SplitThenJoin(a);
    SplitThenJoin(b);
    if b == "" {
      assert a + b == a;
    } else if a == "" {
      assert a + b == b;
    } else if EndsWithBreak(a) {
      CleanCut(SplitLines(a), SplitLines(b));
    } else {
      TornCut(SplitLines(a), SplitLines(b));
    }
  }

  lemma {:induction false} ChompConcat(x: seq<string>, y: seq<string>)
    ensures ChompAll(x + y) == ChompAll(x) + ChompAll(y)
  {
    if x == [] {
      assert x + y == y;
    } else {
      assert (x + y)[1..] == x[1..] + y;
      ChompConcat(x[1..], y);
    }
  }

  /** The lines a follower has returned, chunk by chunk. */
  function ReturnedLines(chunks: seq<string>): seq<string> {
    if chunks == [] then [] else ReturnedLines(chunks[..|chunks| - 1]) + Lines(chunks[|chunks| - 1])
  }

  /** The number of cuts that fall inside a line. */
  function TornCuts(chunks: seq<string>): nat {
    if chunks == [] then 0
    else
      var init, last := chunks[..|chunks| - 1], chunks[|chunks| - 1];
      TornCuts(init) + if !EndsWithBreak(Flat(init)) && last != "" then 1 else 0
  }

  lemma {:induction false} ChunkLines(chunks: seq<string>)
    ensures |ReturnedLines(chunks)| == |Lines(Flat(chunks))| + TornCuts(chunks)
    ensures TornCuts(chunks) == 0 ==> ReturnedLines(chunks) == Lines(Flat(chunks))
  {
    if chunks != [] {
      var init, last := chunks[..|chunks| - 1], chunks[|chunks| - 1];
      ChunkLines(init);
      SplitInTwo(Flat(init), last);
      ChompConcat(SplitLines(Flat(init)), SplitLines(last));
    }
  }

  /** The returned lines are the lines of the part of the file read so far exactly when no read ended inside a
      line that a later read went on with. */
  lemma LinesAgreeIffNoneTorn(f: Follower, events: seq<Event>, maxBytes: nat, start: nat)
    requires ExactlyOnce(f, start)
    ensures var g := FollowAll(f, events, maxBytes);
            start <= g.offset <= |g.content|
            && (ReturnedLines(g.chunks) == Lines(g.content[start..g.offset]) <==> TornCuts(g.chunks) == 0)
  {
    NothingLostOrRepeated(f, events, maxBytes, start);
    ChunkLines(FollowAll(f, events, maxBytes).chunks);
  }

  /** Chunks already returned play no part in what follows. */
  lemma {:induction false} ChunksAccumulate(f: Follower, events: seq<Event>, maxBytes: nat)
    ensures var g, h := FollowAll(f, events, maxBytes), FollowAll(f.(chunks := []), events, maxBytes);
            g == h.(chunks := f.chunks + h.chunks)
    decreases |events|
  {
    if events == [] {
      assert f.chunks + [] == f.chunks;
    } else {
      var g, h := Follow(f, events[0], maxBytes), Follow(f.(chunks := []), events[0], maxBytes);
      ChunksAccumulate(g, events[1..], maxBytes);
      ChunksAccumulate(h, events[1..], maxBytes);
      var rest := FollowAll(g.(chunks := []), events[1..], maxBytes);
      assert g.(chunks := []) == h.(chunks := []);
      assert (f.chunks + h.chunks) + rest.chunks == f.chunks + (h.chunks + rest.chunks);
      assert g.chunks == f.chunks + h.chunks;
    }
  }

  /** A replaced file is recognised by its size alone. Whatever is appended and read after the next read, the new
      chunks are the file from its start if it was then shorter than the offset, and otherwise from the old
      offset on: its first `offset` characters are never returned. */
  lemma ReplacedFile(f: Follower, content: string, events: seq<Event>, maxBytes: nat)
    ensures var g := FollowAll(f.(content := content), [Read] + events, maxBytes);
            var start := if |content| < f.offset then 0 else f.offset;
            && |g.chunks| >= |f.chunks| && g.chunks[..|f.chunks|] == f.chunks && content <= g.content
            && start <= g.offset <= |g.content|
            && Flat(g.chunks[|f.chunks|..]) == g.content[start..g.offset]
            && (|Flat(g.chunks[|f.chunks|..])| == g.offset <==> |content| < f.offset || f.offset == 0)
  {
    var replaced := f.(content := content);
    var start := if |content| < f.offset then 0 else f.offset;
    ChunksAccumulate(replaced, [Read] + events, maxBytes);
    var first := Follow(replaced.(chunks := []), Read, maxBytes);
    assert ([Read] + events)[1..] == events;
    assert first.chunks[..0] == [];
    assert Flat(first.chunks) == first.chunks[0];
    NothingLostOrRepeated(first, events, maxBytes, start);
  }

  // ---- The definitions in literals ----

  /** Where a read begins and ends. */
  lemma ReadsInFull(stored: nat, size: nat, maxBytes: nat)
    ensures stored <= size ==> StartOf(Some(stored), size, Full, maxBytes) == stored
    ensures stored > size ==> StartOf(Some(stored), size, Full, maxBytes) == 0
    ensures StartOf(None, size, Full, maxBytes) == 0
    ensures StartOf(None, size, Tail, maxBytes) == if size > maxBytes then size - maxBytes else 0
    ensures stored <= size ==> EndOf(stored, size, maxBytes) - stored == if size - stored > maxBytes then maxBytes else size - stored
  {
  }
}
