/** Adding one round of traffic samples to the stored client counters. */
module ClientTraffic {
  datatype Delta = Delta(up: int, down: int)

  /** Only samples of users with a known id move a stored counter. */
  datatype UserSample = UserSample(isUser: bool, id: nat, upload: bool, traffic: int)

  const BATCH := 100

  function Plus(a: Delta, b: Delta): Delta { Delta(a.up + b.up, a.down + b.down) }

  function Of(deltas: map<nat, Delta>, id: nat): Delta {
    if id in deltas then deltas[id] else Delta(0, 0)
  }

  predicate Counted(s: UserSample) { s.isUser && s.id != 0 }

  function Part(s: UserSample, id: nat): Delta {
    if !Counted(s) || s.id != id then Delta(0, 0) else if s.upload then Delta(s.traffic, 0) else Delta(0, s.traffic)
  }

  /** What the samples carry for one client. */
  function Sum(samples: seq<UserSample>, id: nat): Delta {
    if samples == [] then Delta(0, 0) else Plus(Sum(samples[..|samples| - 1], id), Part(samples[|samples| - 1], id))
  }

  function Added(deltas: map<nat, Delta>, s: UserSample): map<nat, Delta> {
    if Counted(s) then deltas[s.id := Plus(Of(deltas, s.id), Part(s, s.id))] else deltas
  }

  function Accumulated(samples: seq<UserSample>): map<nat, Delta> {
    if samples == [] then map[] else Added(Accumulated(samples[..|samples| - 1]), samples[|samples| - 1])
  }

  /** The accumulated map holds every client's sum. */
  lemma {:induction false} AccumulatedIsSum(samples: seq<UserSample>, id: nat)
    ensures Of(Accumulated(samples), id) == Sum(samples, id)
    decreases |samples|
  {
    if samples != [] {
      AccumulatedIsSum(samples[..|samples| - 1], id);
    }
  }

  method Accumulate(samples: seq<UserSample>) returns (deltas: map<nat, Delta>)
    ensures deltas == Accumulated(samples)
  {
    deltas := map[];
    for n := 0 to |samples|
      invariant deltas == Accumulated(samples[..n])
    {
      var s := samples[n];
      assert samples[..n + 1][..n] == samples[..n];
      if s.isUser && s.id != 0 {
        var delta := Of(deltas, s.id);
        if s.upload {
          delta := delta.(up := delta.up + s.traffic);
        } else {
          delta := delta.(down := delta.down + s.traffic);
        }
        deltas := deltas[s.id := delta];
      }
    }
    assert samples[..|samples|] == samples;
  }

  /** One statement: each listed client gains its delta. */
  function Updated(clients: map<nat, Delta>, ids: seq<nat>, deltas: map<nat, Delta>): map<nat, Delta> {
    clients + (map c | c in clients && c in ids :: Plus(clients[c], Of(deltas, c)))
  }

  method NonzeroIds(deltas: map<nat, Delta>) returns (ids: seq<nat>)
    ensures forall id :: id in ids <==> id in deltas && deltas[id] != Delta(0, 0)
    ensures forall i, j :: 0 <= i < j < |ids| ==> ids[i] != ids[j]
  {
    ids := [];
    var todo := deltas.Keys;
    while todo != {}
      invariant todo <= deltas.Keys
      invariant forall id :: id in ids <==> id in deltas && id !in todo && deltas[id] != Delta(0, 0)
      invariant forall i, j :: 0 <= i < j < |ids| ==> ids[i] != ids[j]
      decreases todo
    {
      var id :| id in todo;
      if deltas[id].up != 0 || deltas[id].down != 0 {
        ids := ids + [id];
      }
      todo := todo - {id};
    }
  }

  lemma NextBatch(ids: seq<nat>, start: nat, end: nat)
    requires start <= end <= |ids| && forall i, j :: 0 <= i < j < |ids| ==> ids[i] != ids[j]
    ensures forall c :: c in ids[..end] <==> c in ids[..start] || c in ids[start..end]
    ensures forall c :: c in ids[start..end] ==> c !in ids[..start]
  {
    assert ids[..end] == ids[..start] + ids[start..end];
  }

  /** Updates in batches; every client gains its delta exactly once. */
  method UpdateDeltas(clients: map<nat, Delta>, deltas: map<nat, Delta>) returns (after: map<nat, Delta>)
    ensures after.Keys == clients.Keys
    ensures forall c :: c in clients ==> after[c] == Plus(clients[c], Of(deltas, c))
  {
    var ids := NonzeroIds(deltas);
    after := clients;
    var start := 0;
    while start < |ids|
      invariant 0 <= start <= |ids| && after.Keys == clients.Keys
      invariant forall c :: c in clients ==>
        after[c] == if c in ids[..start] then Plus(clients[c], Of(deltas, c)) else clients[c]
    {
      var end := if start + BATCH > |ids| then |ids| else start + BATCH;
      NextBatch(ids, start, end);
      after := Updated(after, ids[start..end], deltas);
      start := end;
    }
    assert ids[..|ids|] == ids;
  }

  /** Each stored counter grows by what the samples carried for its client, and
      by nothing else. */
  method SaveTraffic(clients: map<nat, Delta>, samples: seq<UserSample>) returns (after: map<nat, Delta>)
    ensures after.Keys == clients.Keys
    ensures forall c :: c in clients ==> after[c] == Plus(clients[c], Sum(samples, c))
  {
    var deltas := Accumulate(samples);
    after := UpdateDeltas(clients, deltas);
    forall c | c in clients ensures Of(deltas, c) == Sum(samples, c) {
      AccumulatedIsSum(samples, c);
    }
  }

  /** What samples carry adds up over rounds. */
  lemma {:induction false} SumAdds(a: seq<UserSample>, b: seq<UserSample>, id: nat)
    ensures Sum(a + b, id) == Delta(Sum(a, id).up + Sum(b, id).up, Sum(a, id).down + Sum(b, id).down)
    decreases |b|
  {
    if b == [] {
      assert a + b == a;
    } else {
      var front, last, all := b[..|b| - 1], b[|b| - 1], a + b;
      SumAdds(a, front, id);
      assert all[..|all| - 1] == a + front && all[|all| - 1] == last;
      assert Sum(all, id) == Plus(Sum(a + front, id), Part(last, id));
      assert Sum(b, id) == Plus(Sum(front, id), Part(last, id));
    }
  }

  /** One sample counts for the user it names, in its direction, and for nobody if
      it is not a user's or names none. */
  lemma {:induction false} OneSampleCounts(s: UserSample, id: nat)
    ensures Sum([s], id) ==
      if s.isUser && s.id == id && id != 0 then Delta(if s.upload then s.traffic else 0, if s.upload then 0 else s.traffic)
      else Delta(0, 0)
  {
    assert [s][..0] == [];
  }
}
