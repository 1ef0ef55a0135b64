/**
 The reader of server-sent events (scripts/task-business/read-only-probe.ts:590-640) over the decoded text of a stream
 that arrives in arbitrary chunks. It follows the LF and CRLF subset of section 9.2 of the WHATWG HTML standard.
 */
module SseReader {
  import opened Utf16

  const CR: Unit := 13
  const LF: Unit := 10
  const CAP := 2_097_152

  predicate StartsWithCrLf(s: Text) {
    |s| >= 2 && s[0] == CR && s[1] == LF
  }

  /** `replaceAll("\r\n", "\n")`. */
  function Normalised(s: Text): Text {
    if s == [] then []
    else if StartsWithCrLf(s) then [LF] + Normalised(s[2..])
    else [s[0]] + Normalised(s[1..])
  }

  predicate BreakAt(s: Text, k: int) {
    0 <= k < |s| - 1 && s[k] == LF && s[k + 1] == LF
  }

  /** `indexOf("\n\n")`. */
  function EndOf(s: Text): (e: int)
    ensures e == -1 || BreakAt(s, e)
    ensures forall k :: BreakAt(s, k) ==> 0 <= e <= k
  {
    if |s| < 2 then -1
    else if BreakAt(s, 0) then 0
    else
      var e := EndOf(s[1..]);
      assert forall k :: BreakAt(s, k) ==> BreakAt(s[1..], k - 1);
      if e < 0 then -1 else e + 1
  }

  // ------------------------------------------------------------------------------------------ the whole stream at once

  datatype Parts = Parts(frames: seq<Text>, tail: Text)

  function Prepended(frames: seq<Text>, last: Parts): Parts {
    Parts(frames + last.frames, last.tail)
  }

  function Split(s: Text): Parts
    decreases |s|
  {
    var e := EndOf(s);
    if e < 0 then Parts([], s)
    else
      Prepended([s[..e]], Split(s[e + 2..]))
  }

  // ------------------------------------------------------------------------------------------ chunk by chunk

  /** `frames` are those taken off the buffer so far. */
  datatype Reader = Reading(frames: seq<Text>, buffered: Text) | TooLarge(frames: seq<Text>)

  /** The inner loop, and the check of what it leaves. */
  function Drained(frames: seq<Text>, buffered: Text): Reader
    decreases |buffered|
  {
    var e := EndOf(buffered);
    if e < 0 then
      if |buffered| > CAP then TooLarge(frames) else Reading(frames, buffered)
    else if e > CAP then TooLarge(frames)
    else Drained(frames + [buffered[..e]], buffered[e + 2..])
  }

  function Fed(r: Reader, chunk: Text): Reader {
    if r.TooLarge? then r else Drained(r.frames, Normalised(r.buffered + chunk))
  }

  function FedAll(chunks: seq<Text>): Reader {
    if chunks == [] then Reading([], []) else Fed(FedAll(chunks[..|chunks| - 1]), chunks[|chunks| - 1])
  }

  function Joined(chunks: seq<Text>): Text {
    if chunks == [] then [] else Joined(chunks[..|chunks| - 1]) + chunks[|chunks| - 1]
  }

  /** The same without the size checks. */
  function Unbounded(chunks: seq<Text>): Parts {
    if chunks == [] then Parts([], [])
    else
      var before := Unbounded(chunks[..|chunks| - 1]);
      Prepended(before.frames, Split(Normalised(before.tail + chunks[|chunks| - 1])))
  }

  // ------------------------------------------------------------------------------------------ normalising

  predicate CrLfAt(s: Text, i: int) {
    0 <= i < |s| - 1 && s[i] == CR && s[i + 1] == LF
  }

  ghost predicate NoCrLf(s: Text) {
    forall i :: !CrLfAt(s, i)
  }

  predicate CrCrLfAt(s: Text, i: int) {
    0 <= i && CrLfAt(s, i + 1) && s[i] == CR
  }

  ghost predicate NoCrCrLf(s: Text) {
    forall i :: !CrCrLfAt(s, i)
  }

  predicate EndsInCr(s: Text) {
    s != [] && s[|s| - 1] == CR
  }

  predicate StartsWithLf(s: Text) {
    s != [] && s[0] == LF
  }

  lemma Associate(x: Text, y: Text, z: Text)
    ensures x + y + z == x + (y + z)
  {}

  lemma HeadOfSum(x: Text, y: Text)
    requires x != []
    ensures (x + y)[0] == x[0] && (x + y)[1..] == x[1..] + y
    ensures |x| >= 2 ==> (x + y)[1] == x[1] && (x + y)[2..] == x[2..] + y
  {}

  lemma {:induction false} NormalisedAppend(x: Text, y: Text)
    requires !(EndsInCr(x) && StartsWithLf(y))
    ensures Normalised(x + y) == Normalised(x) + Normalised(y)
  {
    if x == [] {
      assert x + y == y;
    } else {
      HeadOfSum(x, y);
      assert StartsWithCrLf(x + y) <==> StartsWithCrLf(x);
      if StartsWithCrLf(x) {
        NormalisedAppend(x[2..], y);
        Associate([LF], Normalised(x[2..]), Normalised(y));
      } else {
        NormalisedAppend(x[1..], y);
        Associate([x[0]], Normalised(x[1..]), Normalised(y));
      }
    }
  }

  lemma TailHasNone(x: Text)
    requires x != []
    ensures NoCrLf(x) ==> NoCrLf(x[1..]) && !StartsWithCrLf(x)
    ensures NoCrCrLf(x) ==> NoCrCrLf(x[1..])
  {
    assert StartsWithCrLf(x) ==> CrLfAt(x, 0);
    assert forall i :: CrLfAt(x[1..], i) ==> CrLfAt(x, i + 1);
    assert forall i :: CrCrLfAt(x[1..], i) ==> CrCrLfAt(x, i + 1);
  }

  lemma {:induction false} NormalisedIsIdle(x: Text)
    requires NoCrLf(x)
    ensures Normalised(x) == x
  {
    if x != [] {
      TailHasNone(x);
      NormalisedIsIdle(x[1..]);
    }
  }

  lemma NormalisedStarts(t: Text)
    ensures StartsWithLf(Normalised(t)) <==> StartsWithLf(t) || StartsWithCrLf(t)
  {}

  lemma EndOfLonger(c: Unit, p: Text)
    ensures EndsInCr([c] + p) <==> if p == [] then c == CR else EndsInCr(p)
  {}

  lemma {:induction false} NormalisedEnds(t: Text)
    ensures Normalised(t) == [] <==> t == []
    ensures EndsInCr(Normalised(t)) <==> EndsInCr(t)
  {
    if StartsWithCrLf(t) {
      NormalisedEnds(t[2..]);
      EndOfLonger(LF, Normalised(t[2..]));
      assert t[2..] != [] ==> t[2..][|t| - 3] == t[|t| - 1];
    } else if t != [] {
      NormalisedEnds(t[1..]);
      EndOfLonger(t[0], Normalised(t[1..]));
      assert t[1..] != [] ==> t[1..][|t| - 2] == t[|t| - 1];
    }
  }

  lemma NoCrLfFromTail(x: Text)
    requires x != [] && NoCrLf(x[1..]) && !StartsWithCrLf(x)
    ensures NoCrLf(x)
  {
    assert forall i :: CrLfAt(x, i) ==> if i == 0 then StartsWithCrLf(x) else CrLfAt(x[1..], i - 1);
  }

  lemma {:induction false} NormalisedHasNoCrLf(t: Text)
    requires NoCrCrLf(t)
    ensures NoCrLf(Normalised(t))
  {
    if t != [] {
      var rest := if StartsWithCrLf(t) then t[2..] else t[1..];
      TailHasNone(t);
      if StartsWithCrLf(t) {
        TailHasNone(t[1..]);
        assert t[1..][1..] == rest;
      } else {
        NormalisedStarts(rest);
        assert t[0] == CR && StartsWithCrLf(rest) ==> CrCrLfAt(t, 0);
      }
      NormalisedHasNoCrLf(rest);
      assert Normalised(t)[1..] == Normalised(rest);
      NoCrLfFromTail(Normalised(t));
    }
  }

  lemma PrefixHasNone(x: Text, y: Text)
    ensures NoCrCrLf(x + y) ==> NoCrCrLf(x)
    ensures NoCrLf(x + y) ==> NoCrLf(x)
  {
    assert forall i :: CrLfAt(x, i) ==> CrLfAt(x + y, i);
    assert forall i :: CrCrLfAt(x, i) ==> CrCrLfAt(x + y, i);
  }

  lemma EndingInCr(u: Text, y: Text)
    requires NoCrLf(Normalised(u + [CR]))
    ensures Normalised(u + [CR]) == Normalised(u) + [CR]
    ensures Normalised(u + ([CR] + y)) == Normalised(Normalised(u) + ([CR] + y))
  {
    NormalisedAppend(u, [CR]);
    assert Normalised([CR]) == [CR];
    NormalisedAppend(u, [CR] + y);
    PrefixHasNone(Normalised(u), [CR]);
    NormalisedIsIdle(Normalised(u));
    NormalisedAppend(Normalised(u), [CR] + y);
  }

  /** Normalising early changes nothing, unless a CR comes to stand before an LF that was made from CRLF. */
  lemma NormalisedTwice(x: Text, y: Text)
    requires NoCrCrLf(x + y)
    ensures Normalised(x + y) == Normalised(Normalised(x) + y)
  {
    PrefixHasNone(x, y);
    NormalisedHasNoCrLf(x);
    if EndsInCr(x) {
      var u := x[..|x| - 1];
      assert x == u + [CR] && x + y == u + ([CR] + y);
      EndingInCr(u, y);
      assert Normalised(u) + [CR] + y == Normalised(u) + ([CR] + y);
    } else {
      NormalisedEnds(x);
      NormalisedIsIdle(Normalised(x));
      NormalisedAppend(x, y);
      NormalisedAppend(Normalised(x), y);
    }
  }

  // ------------------------------------------------------------------------------------------ splitting

  /** The text that a list of frames was taken from. */
  function Written(frames: seq<Text>): Text {
    if frames == [] then [] else frames[0] + [LF, LF] + Written(frames[1..])
  }

  /** The separator after `f` is the first one. */
  predicate IsFrame(f: Text) {
    EndOf(f + [LF, LF]) == |f|
  }

  predicate AllFrames(frames: seq<Text>) {
    forall i :: 0 <= i < |frames| ==> IsFrame(frames[i])
  }

  lemma EndOfIs(s: Text, e: int)
    requires BreakAt(s, e) && forall k :: BreakAt(s, k) ==> e <= k
    ensures EndOf(s) == e
  {}

  /** Where the first frame ends does not depend on what follows its separator. */
  lemma FrameThenRest(f: Text, y: Text)
    requires IsFrame(f)
    ensures EndOf(f + [LF, LF] + y) == |f|
  {
    var s, t := f + [LF, LF], f + [LF, LF] + y;
    assert BreakAt(t, |f|);
    forall k | BreakAt(t, k) ensures |f| <= k {
      if k < |f| {
        assert BreakAt(s, k);
      }
    }
    EndOfIs(t, |f|);
  }

  lemma CutIsFrame(s: Text)
    requires EndOf(s) >= 0
    ensures IsFrame(s[..EndOf(s)])
  {
    var e := EndOf(s);
    var t := s[..e] + [LF, LF];
    assert BreakAt(t, e);
    forall k | BreakAt(t, k) ensures e <= k {
      if k < e {
        assert BreakAt(s, k);
      }
    }
    EndOfIs(t, e);
  }

  lemma CutAndRest(s: Text)
    requires EndOf(s) >= 0
    ensures s == s[..EndOf(s)] + ([LF, LF] + s[EndOf(s) + 2..])
  {}

  lemma {:induction false} SplitIntoFrames(s: Text)
    ensures AllFrames(Split(s).frames) && EndOf(Split(s).tail) < 0
    decreases |s|
  {
    if EndOf(s) >= 0 {
      SplitIntoFrames(s[EndOf(s) + 2..]);
      CutIsFrame(s);
    }
  }

  lemma {:induction false} SplitRejoins(s: Text)
    ensures s == Written(Split(s).frames) + Split(s).tail
    decreases |s|
  {
    if EndOf(s) >= 0 {
      var f, rest := s[..EndOf(s)], Split(s[EndOf(s) + 2..]);
      SplitRejoins(s[EndOf(s) + 2..]);
      WrittenThenTail(f, rest.frames, rest.tail);
      CutAndRest(s);
    } else {
      assert [] + s == s;
    }
  }

  lemma WrittenThenTail(f: Text, frames: seq<Text>, tail: Text)
    ensures Written([f] + frames) + tail == f + ([LF, LF] + (Written(frames) + tail))
  {
    assert ([f] + frames)[1..] == frames;
    var w := Written(frames);
    Associate(f, [LF, LF], w);
    Associate(f, [LF, LF] + w, tail);
    Associate([LF, LF], w, tail);
  }

  lemma SplitFirst(f: Text, rest: Text)
    requires IsFrame(f)
    ensures Split(f + ([LF, LF] + rest)) == Prepended([f], Split(rest))
  {
    var s := f + ([LF, LF] + rest);
    Associate(f, [LF, LF], rest);
    FrameThenRest(f, rest);
    assert s[..|f|] == f && s[|f| + 2..] == rest;
  }

  lemma SplitAfterFirst(f: Text, frames: seq<Text>, y: Text, parts: Parts)
    requires IsFrame(f) && Split(Written(frames) + y) == parts
    ensures Split(Written([f] + frames) + y) == Prepended([f], parts)
  {
    WrittenThenTail(f, frames, y);
    SplitFirst(f, Written(frames) + y);
  }

  lemma {:induction false} SplitAfter(frames: seq<Text>, y: Text, last: Parts)
    requires AllFrames(frames) && Split(y) == last
    ensures Split(Written(frames) + y) == Prepended(frames, last)
  {
    if frames == [] {
      Empty(y);
      PrependedEmpty(last);
    } else {
      var more := frames[1..];
      assert AllFrames(more);
      SplitAfter(more, y, last);
      assert IsFrame(frames[0]);
      SplitAfterFirst(frames[0], more, y, Prepended(more, last));
      PrependedMore(frames, last);
    }
  }

  lemma PrependedEmpty(last: Parts)
    ensures Prepended([], last) == last
  {
    assert [] + last.frames == last.frames;
  }

  lemma PrependedMore(frames: seq<Text>, last: Parts)
    requires frames != []
    ensures [frames[0]] + frames[1..] == frames
    ensures Prepended([frames[0]], Prepended(frames[1..], last)) == Prepended(frames, last)
  {
    assert [frames[0]] + (frames[1..] + last.frames) == frames + last.frames;
  }

  lemma Empty(y: Text)
    ensures Written([]) + y == y
  {}

  lemma {:induction false} WrittenEnds(frames: seq<Text>)
    ensures !EndsInCr(Written(frames))
  {
    if frames != [] {
      WrittenEnds(frames[1..]);
      if Written(frames[1..]) == [] {
        assert Written(frames) == frames[0] + [LF, LF];
      }
    }
  }

  lemma NormalisedAfter(frames: seq<Text>, rest: Text, c: Text)
    requires NoCrLf(Written(frames) + rest)
    ensures Normalised(Written(frames) + rest + c) == Written(frames) + Normalised(rest + c)
  {
    var w := Written(frames);
    PrefixHasNone(w, rest);
    NormalisedIsIdle(w);
    WrittenEnds(frames);
    Associate(w, rest, c);
    NormalisedAppend(w, rest + c);
  }

  /** One chunk more: what is split off early is what is split off in the end. */
  lemma OneMoreChunk(x: Text, c: Text)
    requires NoCrCrLf(x + c)
    ensures var before := Split(Normalised(x));
            Split(Normalised(x + c)) == Prepended(before.frames, Split(Normalised(before.tail + c)))
  {
    var before := Split(Normalised(x));
    NormalisedTwice(x, c);
    SplitRejoins(Normalised(x));
    SplitIntoFrames(Normalised(x));
    PrefixHasNone(x, c);
    NormalisedHasNoCrLf(x);
    NormalisedAfter(before.frames, before.tail, c);
    SplitAfter(before.frames, Normalised(before.tail + c), Split(Normalised(before.tail + c)));
  }

  /** Without size checks: chunk boundaries do not matter for a stream without CR CR LF. */
  lemma {:induction false} UnboundedIsWhole(chunks: seq<Text>)
    requires NoCrCrLf(Joined(chunks))
    ensures Unbounded(chunks) == Split(Normalised(Joined(chunks)))
  {
    if chunks != [] {
      var front, last := chunks[..|chunks| - 1], chunks[|chunks| - 1];
      PrefixHasNone(Joined(front), last);
      UnboundedIsWhole(front);
      OneMoreChunk(Joined(front), last);
    }
  }

  // ------------------------------------------------------------------------------------------ exactly when

  lemma {:induction false} NormalisedShrinks(s: Text)
    ensures |Normalised(s)| <= |s|
  {
    if StartsWithCrLf(s) {
      NormalisedShrinks(s[2..]);
    } else if s != [] {
      NormalisedShrinks(s[1..]);
    }
  }

  lemma NormalisedCrLf(u: Text)
    ensures Normalised(u + [CR, LF]) == Normalised(u) + [LF]
    ensures Normalised(u + [CR, CR, LF]) == Normalised(u) + [CR, LF]
  {
    NormalisedAppend(u, [CR, LF]);
    NormalisedAppend(u, [CR, CR, LF]);
    assert Normalised([]) == [];
    assert [CR, LF][2..] == [] && [CR, CR, LF][1..] == [CR, LF];
  }

  lemma TailKeepsCrLf(frames: seq<Text>, tail: Text, u: Text)
    requires Written(frames) + tail == u + [CR, LF]
    ensures |tail| >= 2 && tail == tail[..|tail| - 2] + [CR, LF]
  {
    var w := Written(frames);
    var s := w + tail;
    assert s[|s| - 2] == CR && s[|s| - 1] == LF;
    assert |tail| == 0 ==> s == w;
    assert |tail| == 1 && w != [] ==> s[|s| - 2] == w[|w| - 1];
    WrittenEndsInBreak(frames);
    assert tail[|tail| - 2] == s[|s| - 2] && tail[|tail| - 1] == s[|s| - 1];
  }

  lemma {:induction false} WrittenEndsInBreak(frames: seq<Text>)
    ensures frames == [] <==> Written(frames) == []
    ensures frames != [] ==> BreakAt(Written(frames), |Written(frames)| - 2)
  {
    if frames != [] {
      var f, w := frames[0], Written(frames[1..]);
      WrittenEndsInBreak(frames[1..]);
      if w != [] {
        assert BreakAt(f + [LF, LF] + w, |f| + 2 + (|w| - 2));
      } else {
        assert f + [LF, LF] + w == f + [LF, LF];
        assert BreakAt(f + [LF, LF], |f|);
      }
    }
  }

  lemma OneChunk(a: Text)
    ensures Joined([a]) == a && Unbounded([a]) == Split(Normalised(a))
  {
    var none: seq<Text> := [a][..0];
    assert none == [] && Joined(none) == [] && Unbounded(none) == Parts([], []);
    assert [] + a == a;
    PrependedEmpty(Split(Normalised(a)));
  }

  lemma JoinedTwo(a: Text, b: Text)
    ensures Joined([a, b]) == a + b
  {
    OneChunk(a);
    assert [a, b][..1] == [a];
  }

  lemma TwoChunks(a: Text, b: Text)
    ensures Joined([a, b]) == a + b
    ensures Unbounded([a, b])
         == Prepended(Split(Normalised(a)).frames, Split(Normalised(Split(Normalised(a)).tail + b)))
  {
    OneChunk(a);
    JoinedTwo(a, b);
    assert [a, b][..1] == [a];
  }

  function Size(p: Parts): nat {
    |Written(p.frames)| + |p.tail|
  }

  lemma {:induction false} WrittenAdds(x: seq<Text>, y: seq<Text>)
    ensures |Written(x + y)| == |Written(x)| + |Written(y)|
  {
    if x == [] {
      assert x + y == y;
    } else {
      WrittenAdds(x[1..], y);
      assert (x + y)[1..] == x[1..] + y;
    }
  }

  /** After CR CR LF, a chunk boundary makes the reader drop a CR that the whole stream would keep. */
  lemma BoundaryDropsCr(u: Text, b: Text)
    ensures Size(Unbounded([u + [CR, CR, LF], b])) < Size(Split(Normalised(u + [CR, CR, LF] + b)))
  {
    var a := u + [CR, CR, LF];
    var before := Split(Normalised(a));
    TwoChunks(a, b);
    NormalisedCrLf(u);
    SplitRejoins(Normalised(a));
    TailKeepsCrLf(before.frames, before.tail, Normalised(u));
    var v := before.tail[..|before.tail| - 2];
    NormalisedCrLf(v);
    NormalisedShrinks(v);
    NormalisedAppend(before.tail, b);
    NormalisedAppend(a, b);
    SizeOfSplit(Normalised(a + b));
    SizeOfSplit(Normalised(before.tail + b));
    WrittenAdds(before.frames, Split(Normalised(before.tail + b)).frames);
  }

  lemma SizeOfSplit(s: Text)
    ensures Size(Split(s)) == |s|
  {
    SplitRejoins(s);
  }

  lemma AtCrCrLf(t: Text) returns (u: Text, b: Text)
    requires !NoCrCrLf(t)
    ensures t == u + [CR, CR, LF] + b
  {
    var i :| CrCrLfAt(t, i);
    u, b := t[..i], t[i + 3..];
    assert t[i..i + 3] == [CR, CR, LF];
  }

  lemma ExtraCrMatters(t: Text) returns (chunks: seq<Text>)
    requires !NoCrCrLf(t)
    ensures Joined(chunks) == t && Size(Unbounded(chunks)) < Size(Split(Normalised(t)))
  {
    var u, b := AtCrCrLf(t);
    TwoChunks(u + [CR, CR, LF], b);
    BoundaryDropsCr(u, b);
    chunks := [u + [CR, CR, LF], b];
  }

  /**
   The state the reader reaches, size checks aside, depends only on the text of the stream, and not on how it was cut
   into chunks, exactly when no CR CR LF occurs in it.
   */
  lemma ChunksDoNotMatterExactly(t: Text)
    ensures NoCrCrLf(t) <==> (forall chunks :: Joined(chunks) == t ==> Unbounded(chunks) == Split(Normalised(t)))
  {
    if NoCrCrLf(t) {
      forall chunks | Joined(chunks) == t ensures Unbounded(chunks) == Split(Normalised(t)) {
        UnboundedIsWhole(chunks);
      }
    } else {
      var chunks := ExtraCrMatters(t);
    }
  }

  /** For a stream that ends with a complete frame the same condition decides about its frames. */
  lemma FramesDoNotMatterExactly(t: Text)
    requires Split(Normalised(t)).tail == []
    ensures NoCrCrLf(t) <==>
            (forall chunks :: Joined(chunks) == t ==> Unbounded(chunks).frames == Split(Normalised(t)).frames)
  {
    if NoCrCrLf(t) {
      forall chunks | Joined(chunks) == t ensures Unbounded(chunks).frames == Split(Normalised(t)).frames {
        UnboundedIsWhole(chunks);
      }
    } else {
      var chunks := ExtraCrMatters(t);
      SameFramesSize(Unbounded(chunks), Split(Normalised(t)));
    }
  }

  lemma SameFramesSize(p: Parts, whole: Parts)
    requires whole.tail == [] && Size(p) < Size(whole)
    ensures p.frames != whole.frames
  {}

  // ------------------------------------------------------------------------------------------ size checks

  /** Frames and tail leave room for a separator that is still incomplete. */
  predicate Fits(p: Parts) {
    (forall i :: 0 <= i < |p.frames| ==> |p.frames[i]| + 2 <= CAP) && |p.tail| <= CAP
  }

  /** Frames and tail pass the size checks. */
  predicate Within(p: Parts) {
    (forall i :: 0 <= i < |p.frames| ==> |p.frames[i]| <= CAP) && |p.tail| <= CAP
  }

  lemma WithinRest(f: Text, rest: Parts)
    ensures Within(Prepended([f], rest)) <==> |f| <= CAP && Within(rest)
  {
    var p := Prepended([f], rest);
    assert p.frames[0] == f;
    assert forall i :: 0 <= i < |rest.frames| ==> rest.frames[i] == p.frames[i + 1];
  }

  lemma PrependedTwice(frames: seq<Text>, f: Text, rest: Parts)
    ensures Prepended(frames + [f], rest) == Prepended(frames, Prepended([f], rest))
  {
    assert frames + [f] + rest.frames == frames + ([f] + rest.frames);
  }

  function AsReader(p: Parts): Reader {
    Reading(p.frames, p.tail)
  }

  /** The inner loop takes off the frames of the buffer, exactly if those and the rest pass the size checks. */
  lemma {:induction false} DrainedIsSplit(frames: seq<Text>, b: Text)
    ensures if Within(Split(b)) then Drained(frames, b) == AsReader(Prepended(frames, Split(b)))
            else Drained(frames, b).TooLarge?
    decreases |b|
  {
    var e := EndOf(b);
    if e < 0 {
      assert frames + [] == frames;
    } else {
      var rest := Split(b[e + 2..]);
      WithinRest(b[..e], rest);
      DrainedIsSplit(frames + [b[..e]], b[e + 2..]);
      PrependedTwice(frames, b[..e], rest);
    }
  }

  lemma UnfinishedIsShort(u: Text, v: Text)
    requires EndOf(u) < 0
    ensures var p := Split(u + v);
            if p.frames == [] then p.tail == u + v else |p.frames[0]| + 1 >= |u|
  {
    var e := EndOf(u + v);
    assert 0 <= e && e + 1 < |u| && BreakAt(u + v, e) ==> BreakAt(u, e);
  }

  lemma TailIsShort(b: Text, c: Text)
    requires NoCrLf(b) && EndOf(b) < 0
    ensures var p := Split(Normalised(b + c));
            if p.frames == [] then |b| <= |p.tail| else |b| <= |p.frames[0]| + 2
  {
    if EndsInCr(b) {
      var u := b[..|b| - 1];
      assert b == u + [CR];
      Associate(u, [CR], c);
      PrefixHasNone(u, [CR]);
      NormalisedIsIdle(u);
      NormalisedAppend(u, [CR] + c);
      NormalisedEnds([CR] + c);
      assert forall k :: BreakAt(u, k) ==> BreakAt(b, k);
      UnfinishedIsShort(u, Normalised([CR] + c));
    } else {
      NormalisedIsIdle(b);
      NormalisedAppend(b, c);
      UnfinishedIsShort(b, Normalised(c));
    }
  }

  lemma PartsFit(frames: seq<Text>, now: Parts)
    requires Fits(Prepended(frames, now))
    ensures Fits(now) && forall i :: 0 <= i < |frames| ==> |frames[i]| + 2 <= CAP
  {
    var all := frames + now.frames;
    assert forall i :: 0 <= i < |frames| ==> frames[i] == all[i];
    assert forall i :: 0 <= i < |now.frames| ==> now.frames[i] == all[|frames| + i];
  }

  lemma PrefixFits(x: Text, c: Text)
    requires NoCrCrLf(x + c) && Fits(Split(Normalised(x + c)))
    ensures Fits(Split(Normalised(x))) && Fits(Split(Normalised(Split(Normalised(x)).tail + c)))
  {
    var before := Split(Normalised(x));
    var now := Split(Normalised(before.tail + c));
    OneMoreChunk(x, c);
    PartsFit(before.frames, now);
    PrefixHasNone(x, c);
    NormalisedHasNoCrLf(x);
    SplitRejoins(Normalised(x));
    SplitIntoFrames(Normalised(x));
    SuffixHasNone(Written(before.frames), before.tail);
    TailIsShort(before.tail, c);
  }

  lemma SuffixHasNone(x: Text, y: Text)
    requires NoCrLf(x + y)
    ensures NoCrLf(y)
  {
    assert forall i :: CrLfAt(y, i) ==> CrLfAt(x + y, |x| + i);
  }

  /**
   However a stream without CR CR LF is cut into chunks, the reader gives the frames of the whole stream, if those and
   the unfinished rest stay below the size limit by the length of a separator.
   */
  lemma {:induction false} FedAllIsWhole(chunks: seq<Text>)
    requires NoCrCrLf(Joined(chunks)) && Fits(Split(Normalised(Joined(chunks))))
    ensures var whole := Split(Normalised(Joined(chunks)));
            FedAll(chunks) == Reading(whole.frames, whole.tail)
  {
    if chunks != [] {
      var x, c := Joined(chunks[..|chunks| - 1]), chunks[|chunks| - 1];
      PrefixHasNone(x, c);
      PrefixFits(x, c);
      FedAllIsWhole(chunks[..|chunks| - 1]);
      OneMoreChunk(x, c);
      var before := Split(Normalised(x));
      FitsWithin(Split(Normalised(before.tail + c)));
      DrainedIsSplit(before.frames, Normalised(before.tail + c));
    }
  }

  lemma FitsWithin(p: Parts)
    requires Fits(p)
    ensures Within(p)
  {}

  /** The frames, and whatever is left over at any moment of the arrival, pass the size checks. */
  ghost predicate WithinThroughout(t: Text) {
    Within(Split(Normalised(t))) && forall k :: 0 <= k <= |t| ==> |Split(Normalised(t[..k])).tail| <= CAP
  }

  lemma PrefixWithin(x: Text, c: Text)
    requires NoCrCrLf(x + c) && WithinThroughout(x + c)
    ensures WithinThroughout(x) && Within(Split(Normalised(Split(Normalised(x)).tail + c)))
  {
    var before, whole := Split(Normalised(x)), Split(Normalised(x + c));
    var now := Split(Normalised(before.tail + c));
    OneMoreChunk(x, c);
    assert forall i :: 0 <= i < |before.frames| ==> before.frames[i] == whole.frames[i];
    assert forall i :: 0 <= i < |now.frames| ==> now.frames[i] == whole.frames[|before.frames| + i];
    forall k | 0 <= k <= |x| ensures |Split(Normalised(x[..k])).tail| <= CAP {
      assert (x + c)[..k] == x[..k];
    }
    assert x[..|x|] == x;
  }

  lemma {:induction false} FedAllWithin(chunks: seq<Text>)
    requires NoCrCrLf(Joined(chunks)) && WithinThroughout(Joined(chunks))
    ensures FedAll(chunks) == AsReader(Split(Normalised(Joined(chunks))))
  {
    if chunks != [] {
      var x, c := Joined(chunks[..|chunks| - 1]), chunks[|chunks| - 1];
      PrefixHasNone(x, c);
      PrefixWithin(x, c);
      FedAllWithin(chunks[..|chunks| - 1]);
      OneMoreChunk(x, c);
      var before := Split(Normalised(x));
      DrainedIsSplit(before.frames, Normalised(before.tail + c));
    }
  }

  lemma FedOne(x: Text)
    ensures if Within(Split(Normalised(x))) then FedAll([x]) == AsReader(Split(Normalised(x)))
            else FedAll([x]).TooLarge?
  {
    var none: seq<Text> := [x][..0];
    assert none == [] && FedAll(none) == Reading([], []);
    assert [] + x == x;
    DrainedIsSplit([], Normalised(x));
    PrependedEmpty(Split(Normalised(x)));
  }

  lemma LeftoverWithin(t: Text, k: nat)
    requires k <= |t| && FedAll([t[..k], t[k..]]).Reading?
    ensures |Split(Normalised(t[..k])).tail| <= CAP
  {
    var chunks := [t[..k], t[k..]];
    assert chunks[..|chunks| - 1] == [t[..k]];
    FedOne(t[..k]);
  }

  /** Every cutting into chunks gives the frames of the whole. */
  ghost predicate AllCutsAgree(t: Text) {
    forall chunks :: Joined(chunks) == t ==> FedAll(chunks) == AsReader(Split(Normalised(t)))
  }

  lemma AllCutsAgreeWithin(t: Text)
    requires AllCutsAgree(t)
    ensures WithinThroughout(t)
  {
    OneChunk(t);
    assert FedAll([t]) == AsReader(Split(Normalised(t)));
    FedOne(t);
    forall k | 0 <= k <= |t| ensures |Split(Normalised(t[..k])).tail| <= CAP {
      CutAgrees(t, k);
      LeftoverWithin(t, k);
    }
  }

  lemma CutAgrees(t: Text, k: nat)
    requires AllCutsAgree(t) && k <= |t|
    ensures FedAll([t[..k], t[k..]]).Reading?
  {
    JoinedTwo(t[..k], t[k..]);
    assert t[..k] + t[k..] == t;
    assert Joined([t[..k], t[k..]]) == t;
  }

  /**
   A stream without CR CR LF gives the frames of the whole under every cutting into chunks, size checks included,
   exactly if its frames and everything left over at any moment of its arrival are within the limit.
   */
  lemma FedAllIsWholeExactly(t: Text)
    requires NoCrCrLf(t)
    ensures WithinThroughout(t) <==> AllCutsAgree(t)
  {
    if WithinThroughout(t) {
      forall chunks | Joined(chunks) == t ensures FedAll(chunks) == AsReader(Split(Normalised(t))) {
        FedAllWithin(chunks);
      }
    }
    if AllCutsAgree(t) {
      AllCutsAgreeWithin(t);
    }
  }

  // ------------------------------------------------------------------------------------------ messages

  const DATA: Text := [100, 97, 116, 97, 58]
  const SPACE: Unit := 32

  /** What `trimStart` removes. */
  predicate White(c: Unit) {
    || 9 <= c <= 13 || c == SPACE || c == 0xA0 || c == 0x1680 || 0x2000 <= c <= 0x200A
    || c == 0x2028 || c == 0x2029 || c == 0x202F || c == 0x205F || c == 0x3000 || c == 0xFEFF
  }

  function TrimStart(s: Text): Text {
    if s != [] && White(s[0]) then TrimStart(s[1..]) else s
  }

  /** `split("\n")`. */
  function Lines(s: Text): (lines: seq<Text>)
    ensures lines != []
  {
    if s == [] then [[]]
    else
      var rest := Lines(s[1..]);
      if s[0] == LF then [[]] + rest else [[s[0]] + rest[0]] + rest[1..]
  }

  function DataLines(lines: seq<Text>): seq<Text> {
    if lines == [] then []
    else
      var rest := DataLines(lines[1..]);
      if DATA <= lines[0] then [TrimStart(lines[0][5..])] + rest else rest
  }

  /** `join("\n")`. */
  function Unlines(lines: seq<Text>): Text {
    if lines == [] then [] else if |lines| == 1 then lines[0] else lines[0] + [LF] + Unlines(lines[1..])
  }

  function Data(frame: Text): Text {
    Unlines(DataLines(Lines(frame)))
  }

  /** The texts handed to `JSON.parse`. */
  function Messages(frames: seq<Text>): seq<Text> {
    if frames == [] then []
    else
      var before, data := Messages(frames[..|frames| - 1]), Data(frames[|frames| - 1]);
      if data == [] then before else before + [data]
  }

  /** A message as a server writes it. */
  function Frame(m: Text): Text {
    DATA + [SPACE] + m
  }

  function Frames(ms: seq<Text>): seq<Text> {
    seq(|ms|, i requires 0 <= i < |ms| => Frame(ms[i]))
  }

  /** A text on one line, such as JSON without indentation, of a length the reader accepts. */
  predicate Sendable(m: Text) {
    m != [] && !White(m[0]) && CR !in m && LF !in m && |m| + 8 <= CAP
  }

  lemma {:induction false} OneLine(s: Text)
    requires LF !in s
    ensures Lines(s) == [s]
  {
    if s != [] {
      OneLine(s[1..]);
      var none: seq<Text> := [s[1..]][1..];
      assert none == [] && [s[0]] + s[1..] == s;
      assert [s] + none == [s];
    }
  }

  lemma FrameReadsBack(m: Text)
    requires Sendable(m)
    ensures Data(Frame(m)) == m && IsFrame(Frame(m)) && CR !in Frame(m) && |Frame(m)| == |m| + 6
  {
    var f := Frame(m);
    OneLine(f);
    var rest := f[5..];
    assert rest == [SPACE] + m && rest[1..] == m;
    assert TrimStart(m) == m;
    assert TrimStart(rest) == m;
    assert DATA <= f;
    var none: seq<Text> := [f][1..];
    assert none == [] && DataLines(none) == [];
    assert DataLines([f]) == [m];
    var t := f + [LF, LF];
    assert forall k :: 0 <= k < |f| ==> t[k] in f;
    assert BreakAt(t, |f|);
    EndOfIs(t, |f|);
  }

  lemma {:induction false} FramesReadBack(ms: seq<Text>)
    requires forall i :: 0 <= i < |ms| ==> Sendable(ms[i])
    ensures Messages(Frames(ms)) == ms
  {
    if ms != [] {
      var front := ms[..|ms| - 1];
      FramesReadBack(front);
      FrameReadsBack(ms[|ms| - 1]);
      assert Frames(ms)[..|ms| - 1] == Frames(front);
      assert ms == front + [ms[|ms| - 1]];
    }
  }

  lemma {:induction false} WrittenHasNoCr(frames: seq<Text>)
    requires forall i :: 0 <= i < |frames| ==> CR !in frames[i]
    ensures CR !in Written(frames)
  {
    if frames != [] {
      WrittenHasNoCr(frames[1..]);
    }
  }

  lemma NoCrNoCrLf(t: Text)
    requires CR !in t
    ensures NoCrLf(t) && NoCrCrLf(t)
  {
    assert forall i :: 0 <= i < |t| ==> t[i] in t;
  }

  /** Messages written as frames come back in order and complete, however the stream is cut into chunks. */
  lemma MessagesReadBack(ms: seq<Text>, chunks: seq<Text>)
    requires forall i :: 0 <= i < |ms| ==> Sendable(ms[i])
    requires Joined(chunks) == Written(Frames(ms))
    ensures FedAll(chunks) == Reading(Frames(ms), []) && Messages(FedAll(chunks).frames) == ms
  {
    var frames := Frames(ms);
    var t := Written(frames);
    forall i | 0 <= i < |ms| ensures IsFrame(frames[i]) && CR !in frames[i] && |frames[i]| + 2 <= CAP {
      FrameReadsBack(ms[i]);
    }
    WrittenHasNoCr(frames);
    NoCrNoCrLf(t);
    NormalisedIsIdle(t);
    var nothing: Text := [];
    assert EndOf(nothing) == -1;
    SplitAfter(frames, nothing, Parts([], nothing));
    assert t + nothing == t && frames + [] == frames;
    FedAllIsWhole(chunks);
    FramesReadBack(ms);
  }

  /** Two frames separated by a blank line that starts with an extra CR, and the frame they become. */
  function Torn(m1: Text, m2: Text): (Text, Text) {
    (Frame(m1) + [LF, CR, CR, LF], Frame(m2) + [LF, LF])
  }

  function Merged(m1: Text, m2: Text): Text {
    Frame(m1) + ([LF, CR, LF] + Frame(m2))
  }

  lemma {:induction false} LinesBreak(s: Text, rest: Text)
    requires LF !in s
    ensures Lines(s + ([LF] + rest)) == [s] + Lines(rest)
  {
    var t := s + ([LF] + rest);
    if s == [] {
      assert t == [LF] + rest && t[1..] == rest;
    } else {
      assert t[0] == s[0] && t[1..] == s[1..] + ([LF] + rest);
      LinesBreak(s[1..], rest);
      assert [s[0]] + s[1..] == s;
      assert ([s[1..]] + Lines(rest))[1..] == Lines(rest);
    }
  }

  lemma MergedData(m1: Text, m2: Text)
    requires Sendable(m1) && Sendable(m2)
    ensures Data(Merged(m1, m2)) == m1 + [LF] + m2
  {
    var f1, f2 := Frame(m1), Frame(m2);
    FrameReadsBack(m1);
    FrameReadsBack(m2);
    FrameIsOneLine(m1);
    FrameIsOneLine(m2);
    var rest := [CR] + ([LF] + f2);
    assert [LF, CR, LF] + f2 == [LF] + rest;
    LinesBreak(f1, rest);
    LinesBreak([CR], f2);
    OneLine(f2);
    MergedLines(m1, m2);
  }

  lemma FrameIsOneLine(m: Text)
    requires Sendable(m)
    ensures LF !in Frame(m) && Frame(m)[5..] == [SPACE] + m && TrimStart(Frame(m)[5..]) == m && DATA <= Frame(m)
  {
    var rest := Frame(m)[5..];
    assert rest == [SPACE] + m && rest[1..] == m;
    assert TrimStart(m) == m;
  }

  lemma MergedLines(m1: Text, m2: Text)
    requires Sendable(m1) && Sendable(m2)
    ensures Unlines(DataLines([Frame(m1)] + ([[CR]] + [Frame(m2)]))) == m1 + [LF] + m2
  {
    FrameIsOneLine(m1);
    FrameIsOneLine(m2);
    var last := [Frame(m2)];
    var none: seq<Text> := last[1..];
    assert none == [] && DataLines(none) == [];
    assert DataLines(last) == [m2];
    var two := [[CR]] + last;
    assert two[1..] == last && DataLines(two) == [m2];
    var all := [Frame(m1)] + two;
    assert all[1..] == two && DataLines(all) == [m1, m2];
    assert [m1, m2][1..] == [m2];
  }

  /** What the reader holds after the first of the two chunks: a line, and a blank line with a CR in it. */
  lemma TornFirst(m1: Text, m2: Text)
    requires Sendable(m1) && Sendable(m2)
    ensures var x := Frame(m1) + [LF, CR, LF];
            Normalised(Torn(m1, m2).0) == x && Split(x) == Parts([], x)
  {
    var f1 := Frame(m1);
    OneLineThenCrCrLf(f1, m1);
    NoBreakIn(f1);
  }

  lemma OneLineThenCrCrLf(f1: Text, m1: Text)
    requires Sendable(m1) && f1 == Frame(m1)
    ensures LF !in f1 && Normalised(f1 + [LF, CR, CR, LF]) == f1 + [LF, CR, LF]
    ensures Normalised(f1 + [LF, CR, LF]) == f1 + [LF, LF]
  {
    FrameReadsBack(m1);
    FrameIsOneLine(m1);
    var line := f1 + [LF];
    NoCrNoCrLf(line);
    NormalisedIsIdle(line);
    NormalisedCrLf(line);
    assert line + [CR, CR, LF] == f1 + [LF, CR, CR, LF] && line + [CR, LF] == f1 + [LF, CR, LF];
    assert line + [LF] == f1 + [LF, LF];
  }

  lemma SecondIsIdle(m2: Text)
    requires Sendable(m2)
    ensures Normalised(Frame(m2) + [LF, LF]) == Frame(m2) + [LF, LF]
  {
    FrameReadsBack(m2);
    NoCrNoCrLf(Frame(m2) + [LF, LF]);
    NormalisedIsIdle(Frame(m2) + [LF, LF]);
  }

  lemma TwoFrames(f1: Text, f2: Text)
    requires IsFrame(f1) && IsFrame(f2)
    ensures Split(f1 + [LF, LF] + (f2 + [LF, LF])) == Parts([f1, f2], [])
  {
    var nothing: Text, none: seq<Text> := [], [];
    assert EndOf(nothing) == -1;
    SplitFirst(f2, nothing);
    assert [LF, LF] + nothing == [LF, LF];
    SplitFirst(f1, f2 + [LF, LF]);
    Associate(f1, [LF, LF], f2 + [LF, LF]);
    assert [f1] + ([f2] + none) == [f1, f2];
  }

  lemma TornFrames(m1: Text, m2: Text)
    requires Sendable(m1) && Sendable(m2)
    ensures var (a, b) := Torn(m1, m2);
            Unbounded([a, b]) == Parts([Frame(m1), Frame(m2)], [])
  {
    var (a, b) := Torn(m1, m2);
    TwoChunks(a, b);
    TornFirst(m1, m2);
    OneLineThenCrCrLf(Frame(m1), m1);
    NormalisedAppend(Frame(m1) + [LF, CR, LF], b);
    SecondIsIdle(m2);
    FrameReadsBack(m1);
    FrameReadsBack(m2);
    TwoFrames(Frame(m1), Frame(m2));
    PrependedEmpty(Parts([Frame(m1), Frame(m2)], []));
  }

  lemma NoBreakIn(f: Text)
    requires LF !in f
    ensures EndOf(f + [LF, CR, LF]) == -1
  {
    var x := f + [LF, CR, LF];
    assert forall k :: 0 <= k < |f| ==> x[k] in f;
  }

  lemma MergedFrame(m1: Text, m2: Text)
    requires Sendable(m1) && Sendable(m2)
    ensures var (a, b) := Torn(m1, m2);
            Split(Normalised(a + b)) == Parts([Merged(m1, m2)], [])
  {
    var (a, b) := Torn(m1, m2);
    var nothing: Text, none: seq<Text> := [], [];
    OneLineThenCrCrLf(Frame(m1), m1);
    FrameIsOneLine(m2);
    NormalisedAppend(a, b);
    SecondIsIdle(m2);
    MergedText(Frame(m1), Frame(m2));
    MergedIsFrame(Frame(m1), Frame(m2));
    SplitFirst(Merged(m1, m2), nothing);
    assert EndOf(nothing) == -1;
    assert [LF, LF] + nothing == [LF, LF];
    assert [Merged(m1, m2)] + none == [Merged(m1, m2)];
  }

  lemma MergedText(f1: Text, f2: Text)
    ensures f1 + [LF, CR, LF] + (f2 + [LF, LF]) == f1 + ([LF, CR, LF] + f2) + [LF, LF]
  {}

  lemma MergedIsFrame(f1: Text, f2: Text)
    requires LF !in f1 && LF !in f2 && f2 != []
    ensures IsFrame(f1 + ([LF, CR, LF] + f2))
  {
    var merged := f1 + ([LF, CR, LF] + f2);
    var t := merged + [LF, LF];
    assert forall k :: 0 <= k < |f1| ==> t[k] == f1[k];
    assert forall k :: |f1| + 3 <= k < |f1| + 3 + |f2| ==> t[k] == f2[k - |f1| - 3];
    assert BreakAt(t, |merged|);
    forall k | BreakAt(t, k) ensures |merged| <= k {
      NotInside(t, f1, f2, k);
    }
    EndOfIs(t, |merged|);
  }

  lemma NotInside(t: Text, f1: Text, f2: Text, k: int)
    requires LF !in f1 && LF !in f2 && f2 != [] && |t| == |f1| + |f2| + 5 && BreakAt(t, k)
    requires forall i :: 0 <= i < |f1| ==> t[i] == f1[i]
    requires forall i :: |f1| + 3 <= i < |f1| + 3 + |f2| ==> t[i] == f2[i - |f1| - 3]
    requires t[|f1| + 1] == CR
    ensures |f1| + 3 + |f2| <= k
  {
    assert forall i :: 0 <= i < |f1| ==> t[i] in f1;
    assert forall i :: |f1| + 3 <= i < |f1| + 3 + |f2| ==> t[i] in f2;
  }

  /** With a CR CR LF between them, two messages are read as two or as one, depending on where a chunk ends. */
  lemma MessagesDependOnChunks(m1: Text, m2: Text)
    requires Sendable(m1) && Sendable(m2)
    ensures var (a, b) := Torn(m1, m2);
            && Joined([a, b]) == Joined([a + b])
            && Messages(Unbounded([a, b]).frames) == [m1, m2]
            && Messages(Unbounded([a + b]).frames) == [m1 + [LF] + m2]
  {
    var (a, b) := Torn(m1, m2);
    JoinedTwo(a, b);
    OneChunk(a + b);
    TornFrames(m1, m2);
    MergedFrame(m1, m2);
    MergedData(m1, m2);
    TwoMessages(m1, m2);
    OneMessage(Merged(m1, m2));
  }

  lemma TwoMessages(m1: Text, m2: Text)
    requires Sendable(m1) && Sendable(m2)
    ensures Messages([Frame(m1), Frame(m2)]) == [m1, m2]
  {
    assert Frames([m1, m2]) == [Frame(m1), Frame(m2)];
    FramesReadBack([m1, m2]);
  }

  lemma OneMessage(f: Text)
    requires Data(f) != []
    ensures Messages([f]) == [Data(f)]
  {
    var none: seq<Text> := [f][..0];
    assert none == [] && Messages(none) == [];
  }

  // ------------------------------------------------------------------------------------------ as a loop

  /** `sseMessages`, over the chunks it is given until the stream ends. */
  method SseMessages(chunks: seq<Text>) returns (messages: seq<Text>, buffered: Text, tooLarge: bool)
    ensures tooLarge <==> FedAll(chunks).TooLarge?
    ensures messages == Messages(FedAll(chunks).frames)
    ensures !tooLarge ==> FedAll(chunks).buffered == buffered
  {
    messages, buffered, tooLarge := [], [], false;
    ghost var frames: seq<Text> := [];
    var n := 0;
    while n < |chunks|
      invariant n <= |chunks|
      invariant FedAll(chunks[..n]) == Reading(frames, buffered)
      invariant messages == Messages(frames)
    {
      assert chunks[..n + 1][..n] == chunks[..n];
      buffered := Normalised(buffered + chunks[n]);
      var end := EndOf(buffered);
      while end >= 0
        invariant end == EndOf(buffered)
        invariant Drained(frames, buffered) == FedAll(chunks[..n + 1])
        invariant messages == Messages(frames)
        decreases |buffered|
      {
        if end > CAP {
          TooLargeStays(chunks, n + 1);
          return messages, buffered, true;
        }
        var frame := buffered[..end];
        buffered := buffered[end + 2..];
        var data := Data(frame);
        if data != [] {
          messages := messages + [data];
        }
        assert (frames + [frame])[..|frames|] == frames;
        frames := frames + [frame];
        end := EndOf(buffered);
      }
      if |buffered| > CAP {
        TooLargeStays(chunks, n + 1);
        return messages, buffered, true;
      }
      n := n + 1;
    }
    assert chunks[..n] == chunks;
  }

  lemma {:induction false} TooLargeStays(chunks: seq<Text>, n: nat)
    requires n <= |chunks| && FedAll(chunks[..n]).TooLarge?
    ensures FedAll(chunks) == FedAll(chunks[..n])
  {
    if n < |chunks| {
      assert chunks[..|chunks| - 1][..n] == chunks[..n];
      TooLargeStays(chunks[..|chunks| - 1], n);
    } else {
      assert chunks[..n] == chunks;
    }
  }
}
