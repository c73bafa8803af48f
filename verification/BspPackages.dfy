/** Bound profile packages piece by piece: what comes out when every segment is opened, and what the first refused
    segment does to the whole, wherever it stands. */
module BspPackages {
  import opened Options
  import opened BspPrimitives
  import opened BspChannel
  import opened BspRuns
  import opened BspCrypto

  datatype Piece = Piece(segment: Octets, encrypted: bool)

  function Pieces(segments: seq<Octets>, encrypted: bool): (r: seq<Piece>)
    ensures |r| == |segments|
  {
    seq(|segments|, i requires 0 <= i < |segments| => Piece(segments[i], encrypted))
  }

  /** The first pieces have been opened in order, each in the state that the one before has left. */
  ghost predicate OpenedSoFar(p: Suite, keys: Keys, pieces: seq<Piece>, states: seq<Channel>, plains: seq<Octets>) {
    && |states| == |plains| + 1 && |plains| <= |pieces|
    && forall i :: 0 <= i < |plains| ==>
         Open(p, keys, states[i], pieces[i].segment, pieces[i].encrypted) == Outcome(states[i + 1], Ok(plains[i]))
  }

  /** What opening the next one gives. */
  function NextOpened(p: Suite, keys: Keys, pieces: seq<Piece>, states: seq<Channel>, n: nat): Outcome<Octets>
    requires n < |pieces| && n < |states|
  {
    Open(p, keys, states[n], pieces[n].segment, pieces[n].encrypted)
  }

  function Joined(parts: seq<Octets>): Octets { if parts == [] then [] else parts[0] + Joined(parts[1..]) }

  lemma {:induction false} SequenceOpened(p: Suite, keys: Keys, segments: seq<Octets>, encrypted: bool,
                                          states: seq<Channel>, plains: seq<Octets>)
    requires OpenedSoFar(p, keys, Pieces(segments, encrypted), states, plains)
    ensures
      var all, n := OpenAll(p, keys, states[0], segments, encrypted), |plains|;
      && (n == |segments| ==> all == Outcome(states[n], Ok(Joined(plains))))
      && (n < |segments| && NextOpened(p, keys, Pieces(segments, encrypted), states, n).result.Err? ==>
            all == NextOpened(p, keys, Pieces(segments, encrypted), states, n))
    decreases |segments|
  {
    hide Open;
    if plains != [] {
      assert Pieces(segments, encrypted)[1..] == Pieces(segments[1..], encrypted);
      OneOpened(p, keys, Pieces(segments, encrypted), states, plains);
      SequenceOpened(p, keys, segments[1..], encrypted, states[1..], plains[1..]);
    }
  }

  /** Behind the first piece, the others are opened in the same way. */
  lemma OneOpened(p: Suite, keys: Keys, pieces: seq<Piece>, states: seq<Channel>, plains: seq<Octets>)
    requires OpenedSoFar(p, keys, pieces, states, plains) && plains != []
    ensures Open(p, keys, states[0], pieces[0].segment, pieces[0].encrypted) == Outcome(states[1], Ok(plains[0]))
    ensures OpenedSoFar(p, keys, pieces[1..], states[1..], plains[1..])
  {
    hide Open;
    forall i | 0 <= i < |plains| - 1
      ensures Open(p, keys, states[1..][i], pieces[1..][i].segment, pieces[1..][i].encrypted)
           == Outcome(states[1..][i + 1], Ok(plains[1..][i]))
    {
      assert states[1..][i] == states[i + 1] && pieces[1..][i] == pieces[i + 1] && plains[1..][i] == plains[i + 1];
    }
  }

  /** A run of pieces in two parts: the first ends where it is cut, and the second goes on from there. */
  lemma Parts(p: Suite, keys: Keys, a: seq<Piece>, b: seq<Piece>, states: seq<Channel>, plains: seq<Octets>)
    requires OpenedSoFar(p, keys, a + b, states, plains)
    ensures |plains| <= |a| ==> OpenedSoFar(p, keys, a, states, plains)
    ensures |plains| >= |a| ==>
              && OpenedSoFar(p, keys, a, states[..|a| + 1], plains[..|a|])
              && OpenedSoFar(p, keys, b, states[|a|..], plains[|a|..])
  {
    hide Open;
    if |plains| >= |a| {
      var s, q := states[|a|..], plains[|a|..];
      forall i | 0 <= i < |q|
        ensures Open(p, keys, s[i], b[i].segment, b[i].encrypted) == Outcome(s[i + 1], Ok(q[i]))
      {
        assert b[i] == (a + b)[|a| + i];
      }
      forall i | 0 <= i < |a|
        ensures Open(p, keys, states[..|a| + 1][i], a[i].segment, a[i].encrypted)
             == Outcome(states[..|a| + 1][i + 1], Ok(plains[..|a|][i]))
      {
        assert a[i] == (a + b)[i];
      }
    } else {
      forall i | 0 <= i < |plains|
        ensures Open(p, keys, states[i], a[i].segment, a[i].encrypted) == Outcome(states[i + 1], Ok(plains[i]))
      {
        assert a[i] == (a + b)[i];
      }
    }
  }

  /** What every package begins with: the segment for the ISD-P, and the metadata. */
  function Front(b: Package): (r: seq<Piece>)
    ensures |r| == 1 + |b.seq88|
  {
    [Piece(Element0(b.first87), true)] + Pieces(b.seq88, false)
  }

  lemma FrontOpened(p: Suite, parser: KeyParser, keys: Keys, b: Package, more: seq<Piece>, states: seq<Channel>,
                    plains: seq<Octets>)
    requires OpenedSoFar(p, keys, Front(b) + more, states, plains)
    ensures
      var o, n, m := Process(p, parser, keys, states[0], b), |plains|, 1 + |b.seq88|;
      && (n < m ==>
            var next := NextOpened(p, keys, Front(b) + more, states, n);
            next.result.Err? ==> o == Outcome(next.after, Err(next.result.error)))
      && (n >= m ==>
            && OpenedSoFar(p, keys, more, states[m..], plains[m..])
            && Open(p, keys, states[0], Element0(b.first87), true) == Outcome(states[1], Ok(plains[0]))
            && OpenAll(p, keys, states[1], b.seq88, false) == Outcome(states[m], Ok(Joined(plains[1..m]))))
  {
    hide Open, OpenAll, Joined;
    Parts(p, keys, Front(b), more, states, plains);
    var n, m := |plains|, 1 + |b.seq88|;
    var done := if n < m then n else m;
    if n > 0 {
      Parts(p, keys, [Piece(Element0(b.first87), true)], Pieces(b.seq88, false), states[..done + 1], plains[..done]);
      SequenceOpened(p, keys, b.seq88, false, states[..done + 1][1..], plains[..done][1..]);
      assert plains[..done][1..] == plains[1..done];
    }
  }

  /** Without new keys a package is one run of pieces. All opened, it gives their plaintexts; otherwise the first one
      refused decides, with its error and the state it leaves. */
  lemma PackageOpened(p: Suite, parser: KeyParser, keys: Keys, b: Package, states: seq<Channel>, plains: seq<Octets>)
    requires b.second87.None? && OpenedSoFar(p, keys, Front(b) + Pieces(b.seq86, true), states, plains)
    ensures
      var pieces, m := Front(b) + Pieces(b.seq86, true), 1 + |b.seq88|;
      var o, n := Process(p, parser, keys, states[0], b), |plains|;
      && (n == |pieces| ==>
            o == Outcome(states[n], Ok(Processed(plains[0], Joined(plains[1..m]), None, Joined(plains[m..])))))
      && (n < |pieces| ==>
            var next := NextOpened(p, keys, pieces, states, n);
            next.result.Err? ==> o == Outcome(next.after, Err(next.result.error)))
  {
    hide Open, OpenAll, Joined;
    FrontOpened(p, parser, keys, b, Pieces(b.seq86, true), states, plains);
    var m := 1 + |b.seq88|;
    if |plains| >= m {
      SequenceOpened(p, keys, b.seq86, true, states[m..], plains[m..]);
    }
  }

  /** With new keys the run ends with the request for them. Refused anywhere, or with a request that cannot be read, the
      package gives that error. */
  lemma RequestOpened(p: Suite, parser: KeyParser, keys: Keys, b: Package, states: seq<Channel>, plains: seq<Octets>)
    requires
      b.second87.Some? && OpenedSoFar(p, keys, Front(b) + [Piece(Element0(b.second87.value), true)], states, plains)
    ensures
      var pieces := Front(b) + [Piece(Element0(b.second87.value), true)];
      var o, n := Process(p, parser, keys, states[0], b), |plains|;
      && (n == |pieces| && (plains[n - 1] == [] || parser(plains[n - 1]) == None) ==>
            o == Outcome(states[n], Err(MalformedReplaceSessionKeys)))
      && (n < |pieces| ==>
            var next := NextOpened(p, keys, pieces, states, n);
            next.result.Err? ==> o == Outcome(next.after, Err(next.result.error)))
  {
    hide Open, OpenAll, Joined;
    FrontOpened(p, parser, keys, b, [Piece(Element0(b.second87.value), true)], states, plains);
  }

  /** And with a request that reads as new keys, the profile is a run of its own under these, which starts from their
      chain and block number 1; the session stays where the request has left it. */
  lemma ProfileOpened(p: Suite, parser: KeyParser, keys: Keys, b: Package, states: seq<Channel>, plains: seq<Octets>,
                      mcv: Block, enc: Block, cmac: Block, states': seq<Channel>, plains': seq<Octets>)
    requires
      b.second87.Some? && OpenedSoFar(p, keys, Front(b) + [Piece(Element0(b.second87.value), true)], states, plains)
    requires |plains| == 2 + |b.seq88| && plains[|plains| - 1] != []
    requires parser(plains[|plains| - 1]) == Some(NewKeys(mcv, enc, cmac))
    requires OpenedSoFar(p, Keys(enc, cmac), Pieces(b.seq86, true), states', plains') && states'[0] == Channel(mcv, 1)
    ensures
      var o, n, m := Process(p, parser, keys, states[0], b), |plains'|, 1 + |b.seq88|;
      && (n == |b.seq86| ==>
            o == Outcome(states[m + 1], Ok(Processed(plains[0], Joined(plains[1..m]), Some(NewKeys(mcv, enc, cmac)),
                                                     Joined(plains')))))
      && (n < |b.seq86| ==>
            var next := NextOpened(p, Keys(enc, cmac), Pieces(b.seq86, true), states', n);
            next.result.Err? ==> o == Outcome(states[m + 1], Err(next.result.error)))
  {
    hide Open, OpenAll, Joined;
    FrontOpened(p, parser, keys, b, [Piece(Element0(b.second87.value), true)], states, plains);
    SequenceOpened(p, Keys(enc, cmac), b.seq86, true, states', plains');
  }
}
