/** What the recorder's GOPs should be, said without the recorder: each key frame starts a
    GOP that runs on as long as frames of the same coding follow. */
module Segmentation {
  import opened Samples

  /** The recorded part of a camera's stream, with a cut where recording stopped. */
  datatype Piece = Frame(sample: Sample) | Cut

  predicate SameCoding(a: Sample, b: Sample) {
    a.codec == b.codec && a.params == b.params
  }

  predicate Continues(first: Sample, p: Piece) {
    p.Frame? && !p.sample.isKey && SameCoding(first, p.sample)
  }

  /** The frames that directly continue a GOP. */
  function Follow(first: Sample, p: seq<Piece>): seq<Sample> {
    if p == [] || !Continues(first, p[0]) then [] else [p[0].sample] + Follow(first, p[1..])
  }

  predicate IsKeyFrame(p: Piece) {
    p.Frame? && p.sample.isKey
  }

  /** The GOPs of a stream, one for each key frame. */
  function Segments(p: seq<Piece>): seq<seq<Sample>> {
    if p == [] then []
    else if IsKeyFrame(p[0]) then [[p[0].sample] + Follow(p[0].sample, p[1..])] + Segments(p[1..])
    else Segments(p[1..])
  }

  /** The GOP that reaches the end of the stream and may still grow, if there is one. */
  function Open(p: seq<Piece>): seq<Sample> {
    if p == [] then []
    else if IsKeyFrame(p[0]) && |Follow(p[0].sample, p[1..])| == |p| - 1 then
      [p[0].sample] + Follow(p[0].sample, p[1..])
    else Open(p[1..])
  }

  // ---------------------------------------------------------------------------
  // One more piece
  // ---------------------------------------------------------------------------

  lemma {:induction false} FollowAppend(first: Sample, p: seq<Piece>, x: Piece)
    ensures Follow(first, p + [x])
         == if |Follow(first, p)| == |p| && Continues(first, x) then Follow(first, p) + [x.sample] else Follow(first, p)
    ensures |Follow(first, p)| <= |p|
  {
    if p == [] {
      assert p + [x] == [x];
      assert Follow(first, [x][1..]) == [];
    } else {
      assert (p + [x])[1..] == p[1..] + [x];
      FollowAppend(first, p[1..], x);
    }
  }

  /** Frames that only continue a GOP start none. */
  lemma {:induction false} NoKeyInFollow(first: Sample, p: seq<Piece>)
    requires |Follow(first, p)| == |p|
    ensures Segments(p) == [] && Open(p) == []
  {
    if p != [] {
      NoKeyInFollow(first, p[1..]);
    }
  }

  lemma {:induction false} OpenIsLast(p: seq<Piece>)
    requires Open(p) != []
    ensures Segments(p) != [] && Segments(p)[|Segments(p)| - 1] == Open(p)
  {
    if IsKeyFrame(p[0]) && |Follow(p[0].sample, p[1..])| == |p| - 1 {
      NoKeyInFollow(p[0].sample, p[1..]);
    } else {
      OpenIsLast(p[1..]);
    }
  }

  /** A key frame starts a new GOP. */
  lemma {:induction false} AppendKey(p: seq<Piece>, x: Piece)
    requires IsKeyFrame(x)
    ensures Segments(p + [x]) == Segments(p) + [[x.sample]]
    ensures Open(p + [x]) == [x.sample]
  {
    if p == [] {
      assert p + [x] == [x] && [x][1..] == [];
      assert [x.sample] + Follow(x.sample, []) == [x.sample];
    } else {
      assert (p + [x])[1..] == p[1..] + [x];
      AppendKey(p[1..], x);
      if IsKeyFrame(p[0]) {
        FollowAppend(p[0].sample, p[1..], x);
      }
    }
  }

  /** Another frame of the open GOP makes it longer. */
  lemma {:induction false} AppendContinuation(p: seq<Piece>, x: Piece)
    requires Open(p) != [] && Continues(Open(p)[0], x)
    ensures Segments(p) != []
    ensures Segments(p + [x]) == Segments(p)[|Segments(p)| - 1 := Open(p) + [x.sample]]
    ensures Open(p + [x]) == Open(p) + [x.sample]
  {
    var tail := p[1..];
    assert (p + [x])[1..] == tail + [x];
    OpenIsLast(p);
    if IsKeyFrame(p[0]) {
      FollowAppend(p[0].sample, tail, x);
    }
    if IsKeyFrame(p[0]) && |Follow(p[0].sample, tail)| == |p| - 1 {
      NoKeyInFollow(p[0].sample, tail);
      NoKeyInFollow(p[0].sample, tail + [x]);
      assert [p[0].sample] + (Follow(p[0].sample, tail) + [x.sample]) == Open(p) + [x.sample];
    } else {
      AppendContinuation(tail, x);
      var head := if IsKeyFrame(p[0]) then [[p[0].sample] + Follow(p[0].sample, tail)] else [];
      assert Segments(p) == head + Segments(tail);
      assert Segments(p + [x]) == head + Segments(tail + [x]);
    }
  }

  /** Any other piece leaves the GOPs as they are and closes the open one. */
  lemma {:induction false} AppendBreak(p: seq<Piece>, x: Piece)
    requires !IsKeyFrame(x) && (Open(p) != [] ==> !Continues(Open(p)[0], x))
    ensures Segments(p + [x]) == Segments(p)
    ensures Open(p + [x]) == []
  {
    if p == [] {
      assert p + [x] == [x] && [x][1..] == [];
    } else {
      var tail := p[1..];
      assert (p + [x])[1..] == tail + [x];
      if IsKeyFrame(p[0]) {
        FollowAppend(p[0].sample, tail, x);
        if |Follow(p[0].sample, tail)| == |p| - 1 {
          NoKeyInFollow(p[0].sample, tail);
        }
      }
      AppendBreak(tail, x);
    }
  }

  // ---------------------------------------------------------------------------

  /** A key frame first and only there, one codec and one set of parameters. */
  ghost predicate IsGOP(g: seq<Sample>) {
    && g != [] && g[0].isKey
    && forall i :: 1 <= i < |g| ==> !g[i].isKey && SameCoding(g[0], g[i])
  }

  lemma {:induction false} FollowCoding(first: Sample, p: seq<Piece>)
    ensures forall s :: s in Follow(first, p) ==> !s.isKey && SameCoding(first, s)
  {
    if p != [] && Continues(first, p[0]) {
      FollowCoding(first, p[1..]);
    }
  }

  lemma {:induction false} SegmentsAreGOPs(p: seq<Piece>)
    ensures forall g :: g in Segments(p) ==> IsGOP(g)
    ensures Open(p) != [] ==> IsGOP(Open(p))
  {
    if p != [] {
      SegmentsAreGOPs(p[1..]);
      if IsKeyFrame(p[0]) {
        var f := Follow(p[0].sample, p[1..]);
        FollowCoding(p[0].sample, p[1..]);
        assert forall i :: 1 <= i < |[p[0].sample] + f| ==> ([p[0].sample] + f)[i] in f;
      }
    }
  }
}
