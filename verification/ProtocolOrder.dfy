/** Facts about acceptance order, stream positions and key multisets used by every protocol step. */
module ProtocolOrder {
  import opened WorkerTypes
  import opened Fragments
  import opened WorkerSteps
  import opened Protocol

  // ----- acceptance order

  lemma {:induction false} RankStep(c: Config, parents: seq<Parent>, i: nat, n: nat)
    requires i <= n <= |parents|
    ensures Rank(c, parents, i) <= Rank(c, parents, n)
    ensures i < n && Accepts(c, parents[i]) ==> Rank(c, parents, i) < Rank(c, parents, n)
  {
    if i < n { RankStep(c, parents, i, n - 1); }
  }

  lemma {:induction false} AcceptedPrefix(c: Config, parents: seq<Parent>, m: nat, n: nat)
    requires m <= n <= |parents|
    ensures AcceptedBelow(c, parents, m) <= AcceptedBelow(c, parents, n)
  {
    if m < n { AcceptedPrefix(c, parents, m, n - 1); }
  }

  lemma {:induction false} RankOfAccepted(c: Config, parents: seq<Parent>, n: nat, x: nat)
    requires n <= |parents| && x < |AcceptedBelow(c, parents, n)|
    ensures Rank(c, parents, AcceptedBelow(c, parents, n)[x]) == x
  {
    if x < |AcceptedBelow(c, parents, n - 1)| {
      RankOfAccepted(c, parents, n - 1, x);
    }
  }

  /** Appending a parent changes nothing about the earlier ones. */
  lemma {:induction false} ExtendOne(c: Config, parents: seq<Parent>, p: Parent, n: nat)
    requires n <= |parents|
    ensures Rank(c, parents + [p], n) == Rank(c, parents, n)
    ensures ImmRank(c, parents + [p], n) == ImmRank(c, parents, n)
    ensures AcceptedBelow(c, parents + [p], n) == AcceptedBelow(c, parents, n)
  {
    if n != 0 { ExtendOne(c, parents, p, n - 1); }
  }

  lemma ExtendAll(c: Config, parents: seq<Parent>, p: Parent)
    ensures forall n: nat :: n <= |parents| ==> Rank(c, parents + [p], n) == Rank(c, parents, n)
    ensures forall n: nat :: n <= |parents| ==> ImmRank(c, parents + [p], n) == ImmRank(c, parents, n)
    ensures forall n: nat :: n <= |parents| ==> AcceptedBelow(c, parents + [p], n) == AcceptedBelow(c, parents, n)
  {
    forall n: nat | n <= |parents|
      ensures Rank(c, parents + [p], n) == Rank(c, parents, n)
      ensures ImmRank(c, parents + [p], n) == ImmRank(c, parents, n)
      ensures AcceptedBelow(c, parents + [p], n) == AcceptedBelow(c, parents, n)
    {
      ExtendOne(c, parents, p, n);
    }
  }

  // ----- chains

  lemma ChainPush(parents: seq<Parent>, a: Coord, wire: seq<Coord>, b: Coord)
    requires Chain(parents, a, wire, b) && ValidCoord(parents, b)
    ensures Chain(parents, a, wire + [b], Succ(parents, b))
  {
    var w := wire + [b];
    forall x | 0 < x < |w| ensures w[x] == Succ(parents, w[x - 1]) {
      if x == |wire| { assert w[x - 1] == wire[|wire| - 1]; } else { assert w[x] == wire[x]; }
    }
  }

  lemma ChainPop(parents: seq<Parent>, a: Coord, wire: seq<Coord>, b: Coord)
    requires Chain(parents, a, wire, b) && wire != []
    ensures ValidCoord(parents, a) && wire[0] == a
    ensures Chain(parents, Succ(parents, a), wire[1..], b)
  {
    var w := wire[1..];
    assert forall x :: 0 <= x < |w| ==> w[x] == wire[x + 1];
    if w != [] { assert wire[1] == Succ(parents, wire[0]); }
    assert forall x :: 0 < x < |w| ==> w[x] == wire[x + 1] && w[x - 1] == wire[x];
  }

  /** Positions only move forward along a chain. */
  lemma {:induction false} ChainOrder(parents: seq<Parent>, a: Coord, wire: seq<Coord>, b: Coord)
    requires Chain(parents, a, wire, b)
    ensures a.j <= b.j && (a.j == b.j ==> a.i <= b.i)
    decreases |wire|
  {
    if wire != [] {
      ChainPop(parents, a, wire, b);
      ChainOrder(parents, Succ(parents, a), wire[1..], b);
    }
  }

  /** Every parent strictly between the ends of a chain has a datagram on it. */
  lemma {:induction false} ChainCovers(parents: seq<Parent>, a: Coord, wire: seq<Coord>, b: Coord, j: nat) returns (x: nat)
    requires Chain(parents, a, wire, b) && a.j <= j < b.j
    ensures x < |wire| && wire[x].j == j
    decreases |wire|
  {
    ChainPop(parents, a, wire, b);
    if a.j == j {
      x := 0;
    } else {
      var y := ChainCovers(parents, Succ(parents, a), wire[1..], b, j);
      x := y + 1;
    }
  }

  lemma ChainExtend(parents: seq<Parent>, p: Parent, a: Coord, wire: seq<Coord>, b: Coord)
    requires Chain(parents, a, wire, b)
    ensures Chain(parents + [p], a, wire, b)
  {
    var q := parents + [p];
    assert forall k: Coord :: k.j < |parents| ==> q[k.j] == parents[k.j];
    assert forall x :: 0 <= x < |wire| ==> Succ(q, wire[x]) == Succ(parents, wire[x]);
  }

  // ----- keys

  lemma RequestKeysAppend(a: seq<BackendRequest>, b: seq<BackendRequest>)
    ensures RequestKeys(a + b) == RequestKeys(a) + RequestKeys(b)
  {
  }

  lemma CompletionKeysAppend(a: seq<BackendCompletion>, b: seq<BackendCompletion>)
    ensures CompletionKeys(a + b) == CompletionKeys(a) + CompletionKeys(b)
  {
  }

  lemma RequestInPipe(q: seq<BackendRequest>, x: nat)
    requires x < |q|
    ensures multiset(RequestKeys(q))[(q[x].id, q[x].payloadIndex)] > 0
  {
    assert RequestKeys(q)[x] == (q[x].id, q[x].payloadIndex);
    assert RequestKeys(q)[x] in RequestKeys(q);
  }

  lemma CompletionInPipe(q: seq<BackendCompletion>, x: nat)
    requires x < |q|
    ensures multiset(CompletionKeys(q))[(q[x].id, q[x].payloadIndex)] > 0
  {
    assert CompletionKeys(q)[x] == (q[x].id, q[x].payloadIndex);
    assert CompletionKeys(q)[x] in CompletionKeys(q);
  }

  /** Every request and completion in the pipe is for a parent in flight, and is awaited. */
  lemma PipeMembers(inflight: map<nat, ResponderInflight>, batch: seq<BackendRequest>, b: Backend)
    requires InvPipe(inflight, Pipe(batch, b))
    ensures forall x :: 0 <= x < |batch| ==> Awaited(inflight, (batch[x].id, batch[x].payloadIndex))
    ensures forall x :: 0 <= x < |b.outstanding| ==>
              Awaited(inflight, (b.outstanding[x].id, b.outstanding[x].payloadIndex))
    ensures forall x :: 0 <= x < |b.completions| ==>
              Awaited(inflight, (b.completions[x].id, b.completions[x].payloadIndex))
  {
    var pipe := Pipe(batch, b);
    forall x | 0 <= x < |batch| ensures Awaited(inflight, (batch[x].id, batch[x].payloadIndex)) {
      RequestInPipe(batch, x);
      assert pipe[(batch[x].id, batch[x].payloadIndex)] > 0;
    }
    forall x | 0 <= x < |b.outstanding| ensures Awaited(inflight, (b.outstanding[x].id, b.outstanding[x].payloadIndex)) {
      RequestInPipe(b.outstanding, x);
      assert pipe[(b.outstanding[x].id, b.outstanding[x].payloadIndex)] > 0;
    }
    forall x | 0 <= x < |b.completions| ensures Awaited(inflight, (b.completions[x].id, b.completions[x].payloadIndex)) {
      CompletionInPipe(b.completions, x);
      assert pipe[(b.completions[x].id, b.completions[x].payloadIndex)] > 0;
    }
  }

  // ----- terminal flags

  lemma {:induction false} CountTrueSet(s: seq<bool>, i: nat)
    requires i < |s| && !s[i]
    ensures CountTrue(s[i := true]) == CountTrue(s) + 1
  {
    var last := |s| - 1;
    if i == last {
      assert s[i := true][..last] == s[..last];
    } else {
      assert s[i := true][..last] == s[..last][i := true];
      CountTrueSet(s[..last], i);
    }
  }

  lemma {:induction false} CountTrueAll(s: seq<bool>)
    ensures CountTrue(s) <= |s|
    ensures CountTrue(s) == |s| <==> forall i :: 0 <= i < |s| ==> s[i]
  {
    if s != [] {
      var last := |s| - 1;
      CountTrueAll(s[..last]);
      assert s == s[..last] + [s[last]];
    }
  }

  lemma {:induction false} CountTrueNone(n: nat)
    ensures CountTrue(seq(n, _ => false)) == 0
  {
    if n != 0 {
      assert seq(n, _ => false)[..n - 1] == seq(n - 1, _ => false);
      CountTrueNone(n - 1);
    }
  }

  /** The combined result: success exactly when all succeeded, otherwise that of the lowest-indexed failure. */
  lemma {:induction false} FirstErrorAll(results: seq<DatagramResult>)
    ensures FirstError(results) == Success <==> forall i :: 0 <= i < |results| ==> results[i] == Success
    ensures FirstError(results) != Success ==>
              exists i :: 0 <= i < |results| && results[i] == FirstError(results) && forall h :: 0 <= h < i ==> results[h] == Success
  {
    if results != [] {
      FirstErrorAll(results[1..]);
      assert results == [results[0]] + results[1..];
      if results[0] != Success {
        assert results[0] == FirstError(results);
      } else if FirstError(results) != Success {
        var i :| 0 <= i < |results[1..]| && results[1..][i] == FirstError(results[1..])
                 && forall h :: 0 <= h < i ==> results[1..][h] == Success;
        assert results[i + 1] == FirstError(results);
      }
    }
  }
}
