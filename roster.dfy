/**
  The roster transforms that the multiplayer handlers apply
  (gemini-quiz-master/hooks/useMultiplayer.ts): append-if-absent on HELLO,
  map-by-id on UPDATE_PROGRESS and on the local progress update, and
  filter-by-id on peer leave. Each is a pure function of the previous roster;
  the lemmas state the replication guarantees of the protocol.
 */
module Roster {
  import opened QuizTypes
  import opened SeqUtil

  /** `roster.some(p => p.id === id)`. */
  predicate HasId(r: seq<Player>, id: string)
  {
    exists i :: 0 <= i < |r| && r[i].id == id
  }

  /** The roster invariant: no two entries share an id. */
  predicate UniqueIds(r: seq<Player>)
  {
    forall i, j :: 0 <= i < j < |r| ==> r[i].id != r[j].id
  }

  /** Number of entries carrying `id`. */
  function CountId(r: seq<Player>, id: string): nat
  {
    if r == [] then 0 else (if r[0].id == id then 1 else 0) + CountId(r[1..], id)
  }

  /** Two entries describe the same participant: only progress may differ. */
  predicate SameIdentity(a: Player, b: Player)
  {
    a.id == b.id && a.name == b.name && a.isHost == b.isHost
  }

  /** The entry created for a participant that has just joined: no progress yet. */
  function Joined(id: string, name: string, isHost: bool): Player
  {
    Player(id, name, isHost, 0, 0, false)
  }

  /** HELLO handling: append `p` unless an entry with its id is already present. */
  function AddIfAbsent(r: seq<Player>, p: Player): (r': seq<Player>)
    ensures HasId(r', p.id)
    ensures |r| <= |r'| <= |r| + 1 && r'[..|r|] == r
  {
    if HasId(r, p.id) then r
    else
      assert (r + [p])[|r|] == p;
      r + [p]
  }

  /** UPDATE_PROGRESS handling: overwrite the progress of the entries with `id`. */
  function ApplyProgress(r: seq<Player>, id: string, score: int, index: int, finished: bool): (r': seq<Player>)
    ensures |r'| == |r|
    ensures forall i :: 0 <= i < |r| ==> SameIdentity(r'[i], r[i])
    ensures forall i :: 0 <= i < |r| && r[i].id != id ==> r'[i] == r[i]
    ensures forall i :: 0 <= i < |r| && r[i].id == id ==>
      r'[i].score == score && r'[i].currentQuestionIndex == index && r'[i].finished == finished
  {
    if r == [] then []
    else
      var head := if r[0].id == id
        then r[0].(score := score, currentQuestionIndex := index, finished := finished)
        else r[0];
      [head] + ApplyProgress(r[1..], id, score, index, finished)
  }

  /** The sender's own optimistic update. The source writes a field named
      `index`, which is not a `Player` field, so only `score` and `finished`
      of the own entry change and `currentQuestionIndex` keeps its value. */
  function ApplyLocalProgress(r: seq<Player>, id: string, score: int, finished: bool): (r': seq<Player>)
    ensures |r'| == |r|
    ensures forall i :: 0 <= i < |r| ==>
      SameIdentity(r'[i], r[i]) && r'[i].currentQuestionIndex == r[i].currentQuestionIndex
    ensures forall i :: 0 <= i < |r| && r[i].id != id ==> r'[i] == r[i]
    ensures forall i :: 0 <= i < |r| && r[i].id == id ==> r'[i].score == score && r'[i].finished == finished
  {
    if r == [] then []
    else
      var head := if r[0].id == id then r[0].(score := score, finished := finished) else r[0];
      [head] + ApplyLocalProgress(r[1..], id, score, finished)
  }

  /** Peer-leave handling: drop every entry with `id`, keeping the others in order. */
  function RemoveId(r: seq<Player>, id: string): (r': seq<Player>)
    ensures !HasId(r', id)
    ensures forall q :: q in r' <==> q in r && q.id != id
    ensures Subsequence(r', r)
    ensures |r'| == |r| - CountId(r, id)
  {
    if r == [] then []
    else
      var rest := RemoveId(r[1..], id);
      assert r == [r[0]] + r[1..];
      if r[0].id == id then
        SubsequenceSkipHead(r[0], rest, r[1..]);
        rest
      else
        assert ([r[0]] + rest)[1..] == rest;
        [r[0]] + rest
  }

  // ---------------------------------------------------------------------------
  // Counting entries: the dedup guarantee

  lemma {:induction false} CountIdAppend(a: seq<Player>, b: seq<Player>, id: string)
    ensures CountId(a + b, id) == CountId(a, id) + CountId(b, id)
  {
    if a != [] {
      assert (a + b)[1..] == a[1..] + b;
      CountIdAppend(a[1..], b, id);
    } else {
      assert a + b == b;
    }
  }

  lemma {:induction false} CountIdPositive(r: seq<Player>, id: string)
    ensures HasId(r, id) <==> CountId(r, id) > 0
  {
    if r != [] {
      CountIdPositive(r[1..], id);
      if HasId(r[1..], id) {
        var i :| 0 <= i < |r[1..]| && r[1..][i].id == id;
        assert r[i + 1].id == id;
      }
      if HasId(r, id) && r[0].id != id {
        var i :| 0 <= i < |r| && r[i].id == id;
        assert r[1..][i - 1].id == id;
      }
    }
  }

  lemma {:induction false} UniqueCountAtMostOne(r: seq<Player>, id: string)
    requires UniqueIds(r)
    ensures CountId(r, id) <= 1
  {
    if r != [] {
      assert UniqueIds(r[1..]) by {
        forall i, j | 0 <= i < j < |r[1..]| ensures r[1..][i].id != r[1..][j].id {
          assert r[1..][i] == r[i + 1] && r[1..][j] == r[j + 1];
        }
      }
      UniqueCountAtMostOne(r[1..], id);
      if r[0].id == id {
        assert !HasId(r[1..], id) by {
          forall i | 0 <= i < |r[1..]| ensures r[1..][i].id != id {
            assert r[1..][i] == r[i + 1];
          }
        }
        CountIdPositive(r[1..], id);
      }
    }
  }

  /** A HELLO from a participant already present leaves the roster unchanged. */
  lemma HelloFromKnownPeer(r: seq<Player>, p: Player)
    requires HasId(r, p.id)
    ensures AddIfAbsent(r, p) == r
  {
  }

  /** A HELLO from a new participant appends exactly its fresh entry at the end. */
  lemma HelloFromNewPeer(r: seq<Player>, id: string, name: string, isHost: bool)
    requires !HasId(r, id)
    ensures AddIfAbsent(r, Joined(id, name, isHost)) == r + [Joined(id, name, isHost)]
    ensures AddIfAbsent(r, Joined(id, name, isHost))[|r|] == Player(id, name, isHost, 0, 0, false)
  {
  }

  /** After a HELLO from `p.id` the roster holds exactly one entry for it,
      whenever it held at most one before. */
  lemma {:induction false} AddIfAbsentCount(r: seq<Player>, p: Player)
    requires CountId(r, p.id) <= 1
    ensures CountId(AddIfAbsent(r, p), p.id) == 1
  {
    CountIdPositive(r, p.id);
    if !HasId(r, p.id) {
      CountIdAppend(r, [p], p.id);
      assert [p][1..] == [];
    }
  }

  /** The roster after a run of HELLO messages all sent by `id`. */
  function HelloRun(r: seq<Player>, id: string, hellos: seq<(string, bool)>): seq<Player>
    decreases |hellos|
  {
    if hellos == [] then r
    else HelloRun(AddIfAbsent(r, Joined(id, hellos[0].0, hellos[0].1)), id, hellos[1..])
  }

  /** Dedup: however many HELLOs arrive from the same peer, the roster ends
      with exactly one entry for it. */
  lemma {:induction false} HelloRunDedup(r: seq<Player>, id: string, hellos: seq<(string, bool)>)
    requires CountId(r, id) <= 1
    requires hellos != []
    ensures CountId(HelloRun(r, id, hellos), id) == 1
    decreases |hellos|
  {
    var next := AddIfAbsent(r, Joined(id, hellos[0].0, hellos[0].1));
    AddIfAbsentCount(r, Joined(id, hellos[0].0, hellos[0].1));
    if hellos[1..] != [] {
      HelloRunDedup(next, id, hellos[1..]);
    }
  }

  // ---------------------------------------------------------------------------
  // The id-uniqueness invariant

  lemma AddIfAbsentUnique(r: seq<Player>, p: Player)
    requires UniqueIds(r)
    ensures UniqueIds(AddIfAbsent(r, p))
  {
  }

  lemma ApplyProgressUnique(r: seq<Player>, id: string, score: int, index: int, finished: bool)
    requires UniqueIds(r)
    ensures UniqueIds(ApplyProgress(r, id, score, index, finished))
  {
  }

  lemma ApplyLocalProgressUnique(r: seq<Player>, id: string, score: int, finished: bool)
    requires UniqueIds(r)
    ensures UniqueIds(ApplyLocalProgress(r, id, score, finished))
  {
  }

  lemma {:induction false} RemoveIdUnique(r: seq<Player>, id: string)
    requires UniqueIds(r)
    ensures UniqueIds(RemoveId(r, id))
  {
    if r != [] {
      assert UniqueIds(r[1..]) by {
        forall i, j | 0 <= i < j < |r[1..]| ensures r[1..][i].id != r[1..][j].id {
          assert r[1..][i] == r[i + 1] && r[1..][j] == r[j + 1];
        }
      }
      RemoveIdUnique(r[1..], id);
      var rest := RemoveId(r[1..], id);
      if r[0].id != id {
        forall j | 0 <= j < |rest| ensures rest[j].id != r[0].id {
          assert rest[j] in rest;
          var k :| 0 <= k < |r[1..]| && r[1..][k] == rest[j];
          assert r[k + 1] == rest[j];
        }
      }
    }
  }

  // ---------------------------------------------------------------------------
  // Progress updates: idempotence and last-writer-wins

  /** The sender's own entry and the receivers' copies of it disagree after an
      update whenever the question index changes: receivers store `index` as
      `currentQuestionIndex`, the sender keeps its old value. */
  lemma LocalAndRemoteViewsDiffer(r: seq<Player>, k: nat, score: int, index: int, finished: bool)
    requires k < |r| && r[k].currentQuestionIndex != index
    ensures ApplyLocalProgress(r, r[k].id, score, finished)[k].currentQuestionIndex == r[k].currentQuestionIndex
    ensures ApplyProgress(r, r[k].id, score, index, finished)[k].currentQuestionIndex == index
    ensures ApplyLocalProgress(r, r[k].id, score, finished)[k] != ApplyProgress(r, r[k].id, score, index, finished)[k]
  {
  }

  /** Of two updates for the same participant, the later one wins entirely. */
  lemma {:induction false} ProgressLastWriterWins(r: seq<Player>, id: string,
      s1: int, i1: int, f1: bool, s2: int, i2: int, f2: bool)
    ensures ApplyProgress(ApplyProgress(r, id, s1, i1, f1), id, s2, i2, f2)
         == ApplyProgress(r, id, s2, i2, f2)
  {
    if r != [] {
      ProgressLastWriterWins(r[1..], id, s1, i1, f1, s2, i2, f2);
    }
  }

  /** Applying the same UPDATE_PROGRESS twice is the same as applying it once. */
  lemma ProgressIdempotent(r: seq<Player>, id: string, score: int, index: int, finished: bool)
    ensures ApplyProgress(ApplyProgress(r, id, score, index, finished), id, score, index, finished)
         == ApplyProgress(r, id, score, index, finished)
  {
    ProgressLastWriterWins(r, id, score, index, finished, score, index, finished);
  }

  /** Updates describing two different participants commute. */
  lemma {:induction false} ProgressCommutes(r: seq<Player>,
      a: string, s1: int, i1: int, f1: bool, b: string, s2: int, i2: int, f2: bool)
    requires a != b
    ensures ApplyProgress(ApplyProgress(r, a, s1, i1, f1), b, s2, i2, f2)
         == ApplyProgress(ApplyProgress(r, b, s2, i2, f2), a, s1, i1, f1)
  {
    if r != [] {
      ProgressCommutes(r[1..], a, s1, i1, f1, b, s2, i2, f2);
    }
  }

  // ---------------------------------------------------------------------------
  // Leaving

  /** On a roster without duplicates, a leave removes exactly the one entry of
      the departed peer and keeps all others, in order. */
  lemma {:induction false} RemoveIdExact(r: seq<Player>, id: string, k: nat)
    requires UniqueIds(r)
    requires k < |r| && r[k].id == id
    ensures RemoveId(r, id) == r[..k] + r[k + 1..]
  {
    if k == 0 {
      RemoveIdFirst(r, id);
      assert r[..0] + r[1..] == r[1..];
    } else {
      UniqueTail(r);
      RemoveIdExact(r[1..], id, k - 1);
      RemoveIdKeepsHead(r, id);
      DeleteAfterHead(r, k);
    }
  }

  /** Deleting position `k > 0` keeps the head and deletes position `k - 1` of the tail. */
  lemma DeleteAfterHead(r: seq<Player>, k: nat)
    requires 0 < k < |r|
    ensures r[..k] + r[k + 1..] == [r[0]] + (r[1..][..k - 1] + r[1..][k..])
  {
    assert r[..k] == [r[0]] + r[1..][..k - 1];
    assert r[k + 1..] == r[1..][k..];
  }

  /** With unique ids, the leave of the first participant drops just the first entry. */
  lemma RemoveIdFirst(r: seq<Player>, id: string)
    requires UniqueIds(r) && r != [] && r[0].id == id
    ensures RemoveId(r, id) == r[1..]
  {
    var t := r[1..];
    assert !HasId(t, id) by {
      forall i | 0 <= i < |t| ensures t[i].id != id {
        assert t[i] == r[i + 1];
      }
    }
    RemoveIdAbsent(t, id);
  }

  lemma RemoveIdKeepsHead(r: seq<Player>, id: string)
    requires r != [] && r[0].id != id
    ensures RemoveId(r, id) == [r[0]] + RemoveId(r[1..], id)
  {
  }

  lemma UniqueTail(r: seq<Player>)
    requires r != [] && UniqueIds(r)
    ensures UniqueIds(r[1..])
  {
    forall i, j | 0 <= i < j < |r[1..]| ensures r[1..][i].id != r[1..][j].id {
      assert r[1..][i] == r[i + 1] && r[1..][j] == r[j + 1];
    }
  }

  /** A leave of a peer that has no entry changes nothing. */
  lemma {:induction false} RemoveIdAbsent(r: seq<Player>, id: string)
    requires !HasId(r, id)
    ensures RemoveId(r, id) == r
  {
    if r != [] {
      assert !HasId(r[1..], id) by {
        forall i | 0 <= i < |r[1..]| ensures r[1..][i].id != id {
          assert r[1..][i] == r[i + 1];
        }
      }
      RemoveIdAbsent(r[1..], id);
      assert r == [r[0]] + r[1..];
    }
  }

  // ---------------------------------------------------------------------------
  // The host flag the lobby reads for the local participant

  /** `players.find(p => p.id === id)?.isHost || false`: the flag of the first entry with `id`. */
  function HostFlagOf(r: seq<Player>, id: string): (b: bool)
    ensures b ==> HasId(r, id)
  {
    if r == [] then false
    else if r[0].id == id then r[0].isHost
    else
      var rest := HostFlagOf(r[1..], id);
      assert rest ==> HasId(r, id) by {
        if rest {
          var i :| 0 <= i < |r[1..]| && r[1..][i].id == id;
          assert r[i + 1].id == id;
        }
      }
      rest
  }

  lemma {:induction false} HostFlagAppend(r: seq<Player>, p: Player, id: string)
    requires HasId(r, id)
    ensures HostFlagOf(r + [p], id) == HostFlagOf(r, id)
  {
    assert (r + [p])[0] == r[0];
    if r[0].id != id {
      assert (r + [p])[1..] == r[1..] + [p];
      var i :| 0 <= i < |r| && r[i].id == id;
      assert r[1..][i - 1].id == id;
      HostFlagAppend(r[1..], p, id);
    }
  }

  /** A participant flagged as host keeps the flag through a HELLO ... */
  lemma HostFlagAfterHello(r: seq<Player>, x: string, p: Player)
    requires HostFlagOf(r, x)
    ensures HostFlagOf(AddIfAbsent(r, p), x)
  {
    if !HasId(r, p.id) {
      HostFlagAppend(r, p, x);
    }
  }

  /** ... through an UPDATE_PROGRESS ... */
  lemma {:induction false} HostFlagAfterProgress(r: seq<Player>, x: string, id: string, score: int, index: int, finished: bool)
    requires HostFlagOf(r, x)
    ensures HostFlagOf(ApplyProgress(r, id, score, index, finished), x)
  {
    if r[0].id != x {
      HostFlagAfterProgress(r[1..], x, id, score, index, finished);
      assert ApplyProgress(r, id, score, index, finished)[1..] == ApplyProgress(r[1..], id, score, index, finished);
    }
  }

  /** ... through the local progress update ... */
  lemma {:induction false} HostFlagAfterLocalProgress(r: seq<Player>, x: string, id: string, score: int, finished: bool)
    requires HostFlagOf(r, x)
    ensures HostFlagOf(ApplyLocalProgress(r, id, score, finished), x)
  {
    if r[0].id != x {
      HostFlagAfterLocalProgress(r[1..], x, id, score, finished);
      assert ApplyLocalProgress(r, id, score, finished)[1..] == ApplyLocalProgress(r[1..], id, score, finished);
    }
  }

  /** The own progress update keeps both parts of a peer's invariant. */
  lemma LocalProgressKeepsInvariant(r: seq<Player>, x: string, score: int, finished: bool)
    ensures UniqueIds(r) ==> UniqueIds(ApplyLocalProgress(r, x, score, finished))
    ensures HostFlagOf(r, x) ==> HostFlagOf(ApplyLocalProgress(r, x, score, finished), x)
  {
    if UniqueIds(r) {
      ApplyLocalProgressUnique(r, x, score, finished);
    }
    if HostFlagOf(r, x) {
      HostFlagAfterLocalProgress(r, x, x, score, finished);
    }
  }

  /** ... and through the leave of any other peer. */
  lemma {:induction false} HostFlagAfterLeave(r: seq<Player>, x: string, id: string)
    requires HostFlagOf(r, x) && x != id
    ensures HostFlagOf(RemoveId(r, id), x)
  {
    if r[0].id != x {
      HostFlagAfterLeave(r[1..], x, id);
    }
  }
}
