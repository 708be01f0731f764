/** The vector exchange after the last round: every rank announces how many vectors it sends to the owner of
    a cluster, sends one per label cell, and the owner writes the cluster's files. */
module Exchange {
  import opened Sorting
  import opened HardAssign
  import opened PartitionRounds

  datatype Record<T> = Record(vector: T, meta: seq<bv8>)

  datatype Message<T> = Count(n: int) | Vec(v: T) | Len(n: int) | Bytes(b: seq<bv8>)

  /** The files of one cluster: the header count, the vectors, the metadata and where each record starts in it, with the
      end of the last one once the files are closed. */
  datatype Output<T> = Output(header: int, vectors: seq<T>, meta: seq<bv8>, offsets: seq<nat>)

  // ---- Which records a rank contributes ----

  function RowSelected<T>(row: seq<int>, rec: Record<T>, k: int): seq<Record<T>> {
    if row == [] then []
    else RowSelected(row[..|row| - 1], rec, k) + if row[|row| - 1] == k then [rec] else []
  }

  /** One record per label cell equal to k, row by row. */
  function Selected<T>(labels: seq<seq<int>>, recs: seq<Record<T>>, k: int): seq<Record<T>>
    requires |labels| == |recs|
  {
    if labels == [] then []
    else Selected(labels[..|labels| - 1], recs[..|recs| - 1], k) + RowSelected(labels[|labels| - 1], recs[|recs| - 1], k)
  }

  lemma {:induction false} RowSelectedSize<T>(row: seq<int>, rec: Record<T>, k: int)
    ensures |RowSelected(row, rec, k)| == CountIf(Equals(k), row)
  {
    if row != [] {
      RowSelectedSize(row[..|row| - 1], rec, k);
      assert row == row[..|row| - 1] + [row[|row| - 1]];
      CountIfSnoc(Equals(k), row[..|row| - 1], row[|row| - 1]);
    }
  }

  lemma {:induction false} SelectedSize<T>(labels: seq<seq<int>>, recs: seq<Record<T>>, k: int, width: nat)
    requires |labels| == |recs| && RowsOf(labels, width)
    ensures |Selected(labels, recs, k)| == CellCount(labels, width, k)
  {
    if labels != [] {
      var n := |labels| - 1;
      SelectedSize(labels[..n], recs[..n], k, width);
      RowSelectedSize(labels[n], recs[n], k);
      assert labels[n][..width] == labels[n];
    }
  }

  lemma {:induction false} RowSelectedAt<T>(row: seq<int>, rec: Record<T>, k: int, p: nat)
    requires p < |RowSelected(row, rec, k)|
    ensures RowSelected(row, rec, k)[p] == rec
  {
    if p < |RowSelected(row[..|row| - 1], rec, k)| {
      RowSelectedAt(row[..|row| - 1], rec, k, p);
    }
  }

  /** What is selected of vector j is its own record, in the places after those of the vectors before it. */
  lemma {:induction false} SelectedAt<T>(labels: seq<seq<int>>, recs: seq<Record<T>>, k: int, width: nat, j: nat, p: nat)
    requires |labels| == |recs| && RowsOf(labels, width) && j < |labels|
    requires CellCount(labels[..j], width, k) <= p < CellCount(labels[..j + 1], width, k)
    ensures p < |Selected(labels, recs, k)| && Selected(labels, recs, k)[p] == recs[j]
  {
    var n := |labels| - 1;
    SelectedSize(labels[..n], recs[..n], k, width);
    if j < n {
      assert labels[..n][..j] == labels[..j] && labels[..n][..j + 1] == labels[..j + 1];
      SelectedAt(labels[..n], recs[..n], k, width, j, p);
    } else {
      assert labels[..j + 1] == labels;
      SelectedSize(labels, recs, k, width);
      RowSelectedAt(labels[n], recs[n], k, p - |Selected(labels[..n], recs[..n], k)|);
    }
  }

  // ---- On the wire ----

  function Wire<T>(rec: Record<T>, withMeta: bool): seq<Message<T>> {
    [Vec(rec.vector)] + if withMeta then [Len(|rec.meta|), Bytes(rec.meta)] else []
  }

  function WireAll<T>(recs: seq<Record<T>>, withMeta: bool): seq<Message<T>> {
    if recs == [] then [] else Wire(recs[0], withMeta) + WireAll(recs[1..], withMeta)
  }

  lemma {:induction false} WireAllSnoc<T>(recs: seq<Record<T>>, rec: Record<T>, withMeta: bool)
    ensures WireAll(recs + [rec], withMeta) == WireAll(recs, withMeta) + Wire(rec, withMeta)
  {
    if recs == [] {
      assert recs + [rec] == [rec];
    } else {
      assert (recs + [rec])[1..] == recs[1..] + [rec];
      WireAllSnoc(recs[1..], rec, withMeta);
    }
  }

  /** The records in hand after the first n cells of a row. */
  function Upto<T>(before: seq<Record<T>>, row: seq<int>, rec: Record<T>, k: int, n: nat): seq<Record<T>>
    requires n <= |row|
  {
    before + RowSelected(row[..n], rec, k)
  }

  lemma {:induction false} UptoEnds<T>(before: seq<Record<T>>, row: seq<int>, rec: Record<T>, k: int)
    ensures Upto(before, row, rec, k, 0) == before && Upto(before, row, rec, k, |row|) == before + RowSelected(row, rec, k)
  {
    assert row[..|row|] == row;
  }

  lemma {:induction false} UptoNext<T>(before: seq<Record<T>>, row: seq<int>, rec: Record<T>, k: int, n: nat)
    requires n < |row|
    ensures row[n] == k ==> Upto(before, row, rec, k, n + 1) == Upto(before, row, rec, k, n) + [rec]
    ensures row[n] != k ==> Upto(before, row, rec, k, n + 1) == Upto(before, row, rec, k, n)
  {
    assert row[..n + 1][..n] == row[..n];
  }

  /** The channel holds the announced count and these records. */
  ghost predicate Carries<T>(msgs: seq<Message<T>>, announced: int, recs: seq<Record<T>>, withMeta: bool) {
    msgs == [Count(announced)] + WireAll(recs, withMeta)
  }

  method SendOne<T>(msgs: seq<Message<T>>, rec: Record<T>, withMeta: bool, ghost announced: int, ghost sent: seq<Record<T>>)
    returns (next: seq<Message<T>>)
    requires Carries(msgs, announced, sent, withMeta)
    ensures Carries(next, announced, sent + [rec], withMeta)
  {
    WireAllSnoc(sent, rec, withMeta);
    next := msgs + [Vec(rec.vector)];
    if withMeta {
      next := next + [Len(|rec.meta|), Bytes(rec.meta)];
    }
  }

  method SendRow<T>(row: seq<int>, rec: Record<T>, k: int, withMeta: bool, before: seq<Message<T>>, ghost sent: seq<Record<T>>,
                    ghost announced: int)
    returns (msgs: seq<Message<T>>)
    requires Carries(before, announced, sent, withMeta)
    ensures Carries(msgs, announced, sent + RowSelected(row, rec, k), withMeta)
  {
    msgs := before;
    var kk := 0;
    UptoEnds(sent, row, rec, k);
    while kk < |row|
      invariant 0 <= kk <= |row| && Carries(msgs, announced, Upto(sent, row, rec, k, kk), withMeta)
    {
      UptoNext(sent, row, rec, k, kk);
      if row[kk] == k {
        msgs := SendOne(msgs, rec, withMeta, announced, Upto(sent, row, rec, k, kk));
      }
      kk := kk + 1;
    }
  }

  /** The sending side: announce the local count, then one record per matching label cell. */
  method Send<T>(labels: seq<seq<int>>, recs: seq<Record<T>>, k: int, announced: int, withMeta: bool)
    returns (msgs: seq<Message<T>>)
    requires |labels| == |recs|
    ensures msgs == [Count(announced)] + WireAll(Selected(labels, recs, k), withMeta)
  {
    hide Selected, RowSelected, WireAll, Carries;
    msgs := [Count(announced)];
    var j := 0;
    NothingSent<T>(announced, k, withMeta);
    assert labels[..0] == [] && recs[..0] == [];
    while j < |labels|
      invariant 0 <= j <= |labels|
      invariant Carries(msgs, announced, Selected(labels[..j], recs[..j], k), withMeta)
    {
      SelectedNext(labels, recs, k, j);
      msgs := SendRow(labels[j], recs[j], k, withMeta, msgs, Selected(labels[..j], recs[..j], k), announced);
      j := j + 1;
    }
    assert labels[..j] == labels && recs[..j] == recs;
    AllSent(msgs, announced, Selected(labels, recs, k), withMeta);
  }

  lemma {:induction false} NothingSent<T>(announced: int, k: int, withMeta: bool)
    ensures Carries([Count(announced)], announced, Selected<T>([], [], k), withMeta)
  {
  }

  lemma {:induction false} AllSent<T>(msgs: seq<Message<T>>, announced: int, recs: seq<Record<T>>, withMeta: bool)
    requires Carries(msgs, announced, recs, withMeta)
    ensures msgs == [Count(announced)] + WireAll(recs, withMeta)
  {
  }

  lemma {:induction false} SelectedNext<T>(labels: seq<seq<int>>, recs: seq<Record<T>>, k: int, j: nat)
    requires |labels| == |recs| && j < |labels|
    ensures Selected(labels[..j + 1], recs[..j + 1], k) == Selected(labels[..j], recs[..j], k) + RowSelected(labels[j], recs[j], k)
  {
    assert labels[..j + 1][..j] == labels[..j] && recs[..j + 1][..j] == recs[..j];
  }

  // ---- The owner's files ----

  function WithRecord<T>(o: Output<T>, rec: Record<T>, withMeta: bool): Output<T> {
    if withMeta then Output(o.header, o.vectors + [rec.vector], o.meta + rec.meta, o.offsets + [|o.meta|])
    else o.(vectors := o.vectors + [rec.vector])
  }

  /** The files that hold exactly the given records, in order. */
  function OutputOf<T>(header: int, recs: seq<Record<T>>, withMeta: bool): (o: Output<T>)
    ensures o.header == header && |o.vectors| == |recs|
    ensures withMeta ==> |o.offsets| == |recs|
  {
    if recs == [] then Output(header, [], [], [])
    else WithRecord(OutputOf(header, recs[..|recs| - 1], withMeta), recs[|recs| - 1], withMeta)
  }

  lemma OutputOfSnoc<T>(header: int, recs: seq<Record<T>>, rec: Record<T>, withMeta: bool)
    ensures OutputOf(header, recs + [rec], withMeta) == WithRecord(OutputOf(header, recs, withMeta), rec, withMeta)
  {
    assert (recs + [rec])[..|recs|] == recs;
  }

  /** The last offset: where the metadata of the last record ends. */
  function Closed<T>(o: Output<T>, withMeta: bool): Output<T> {
    if withMeta then o.(offsets := o.offsets + [|o.meta|]) else o
  }

  /** Each written vector is that of the record at that place, and its metadata lies between its offset and the next. */
  lemma {:induction false} OutputHoldsRecords<T>(header: int, recs: seq<Record<T>>, withMeta: bool, i: nat)
    requires i < |recs|
    ensures var o := Closed(OutputOf(header, recs, withMeta), withMeta);
            && |o.vectors| == |recs| && o.vectors[i] == recs[i].vector
            && (withMeta ==> |o.offsets| == |recs| + 1 && o.offsets[i] <= o.offsets[i + 1] <= |o.meta| &&
                             o.meta[o.offsets[i]..o.offsets[i + 1]] == recs[i].meta)
  {
    var n := |recs| - 1;
    if i < n {
      OutputHoldsRecords(header, recs[..n], withMeta, i);
    }
  }

  /** The cluster's own vectors, written straight from the owner's labels. */
  method WriteOwnRow<T>(row: seq<int>, rec: Record<T>, k: int, withMeta: bool, o0: Output<T>, ghost recs: seq<Record<T>>)
    returns (o: Output<T>)
    requires o0 == OutputOf(o0.header, recs, withMeta)
    ensures o == OutputOf(o0.header, recs + RowSelected(row, rec, k), withMeta)
  {
    o := o0;
    var kk := 0;
    UptoEnds(recs, row, rec, k);
    while kk < |row|
      invariant 0 <= kk <= |row| && o == OutputOf(o0.header, Upto(recs, row, rec, k, kk), withMeta)
    {
      UptoNext(recs, row, rec, k, kk);
      if row[kk] == k {
        OutputOfSnoc(o0.header, Upto(recs, row, rec, k, kk), rec, withMeta);
        o := WithRecord(o, rec, withMeta);
      }
      kk := kk + 1;
    }
  }

  /** The owner's records of the first j vectors behind recs. */
  ghost function OwnUpto<T>(recs: seq<Record<T>>, labels: seq<seq<int>>, own: seq<Record<T>>, k: int, j: nat): seq<Record<T>>
    requires j <= |labels| == |own|
  {
    recs + Selected(labels[..j], own[..j], k)
  }

  lemma {:induction false} OwnNext<T>(recs: seq<Record<T>>, labels: seq<seq<int>>, own: seq<Record<T>>, k: int, j: nat)
    requires j < |labels| == |own|
    ensures OwnUpto(recs, labels, own, k, j + 1) == OwnUpto(recs, labels, own, k, j) + RowSelected(labels[j], own[j], k)
  {
    assert labels[..j + 1][..j] == labels[..j] && own[..j + 1][..j] == own[..j];
  }

  method WriteOwn<T>(labels: seq<seq<int>>, own: seq<Record<T>>, k: int, withMeta: bool, o0: Output<T>, ghost recs: seq<Record<T>>)
    returns (o: Output<T>)
    requires |labels| == |own| && o0 == OutputOf(o0.header, recs, withMeta)
    ensures o == OutputOf(o0.header, recs + Selected(labels, own, k), withMeta)
  {
    o := o0;
    var j := 0;
    assert OwnUpto(recs, labels, own, k, 0) == recs;
    while j < |labels|
      invariant 0 <= j <= |labels| && o.header == o0.header
      invariant o == OutputOf(o0.header, OwnUpto(recs, labels, own, k, j), withMeta)
    {
      OwnNext(recs, labels, own, k, j);
      o := WriteOwnRow(labels[j], own[j], k, withMeta, o, OwnUpto(recs, labels, own, k, j));
      j := j + 1;
    }
    assert labels[..j] == labels && own[..j] == own;
  }

  /** The records that one channel still holds. */
  ghost predicate Holds<T>(chan: seq<Message<T>>, recs: seq<Record<T>>, withMeta: bool) {
    chan == WireAll(recs, withMeta)
  }

  /** One iteration of the receive loop: a vector and, with metadata, its length and its bytes. A receive that
      does not match the next message blocks for ever. */
  method ReceiveOne<T>(chan: seq<Message<T>>, o0: Output<T>, withMeta: bool, ghost recs: seq<Record<T>>)
    returns (blocked: bool, rest: seq<Message<T>>, o: Output<T>)
    requires recs != [] && Holds(chan, recs, withMeta)
    ensures !blocked && Holds(rest, recs[1..], withMeta) && o == WithRecord(o0, recs[0], withMeta)
  {
    blocked, rest, o := true, chan, o0;
    ghost var tail := WireAll(recs[1..], withMeta);
    assert chan == Wire(recs[0], withMeta) + tail;
    if |chan| == 0 || !chan[0].Vec? {
      return;
    }
    if !withMeta {
      assert chan[1..] == tail;
      return false, chan[1..], WithRecord(o0, Record(chan[0].v, []), false);
    }
    assert |Wire(recs[0], withMeta)| == 3;
    if |chan| < 3 || !chan[1].Len? || !chan[2].Bytes? || |chan[2].b| != chan[1].n {
      return;
    }
    assert chan[3..] == tail;
    return false, chan[3..], WithRecord(o0, Record(chan[0].v, chan[2].b), true);
  }

  /** Of what was sent, the first i records are written behind recs and the others still in the channel. */
  ghost predicate Received<T>(rest: seq<Message<T>>, o: Output<T>, header: int, sent: seq<Record<T>>, recs: seq<Record<T>>, i: nat,
                              withMeta: bool)
    requires i <= |sent|
  {
    Holds(rest, sent[i..], withMeta) && o == OutputOf(header, recs + sent[..i], withMeta)
  }

  method ReceiveNext<T>(chan: seq<Message<T>>, o0: Output<T>, withMeta: bool, ghost sent: seq<Record<T>>, ghost recs: seq<Record<T>>,
                        ghost i: nat)
    returns (blocked: bool, rest: seq<Message<T>>, o: Output<T>)
    requires i < |sent| && Received(chan, o0, o0.header, sent, recs, i, withMeta)
    ensures !blocked && Received(rest, o, o0.header, sent, recs, i + 1, withMeta) && o.header == o0.header
  {
    OutputOfSnoc(o0.header, recs + sent[..i], sent[i], withMeta);
    assert recs + sent[..i] + [sent[i]] == recs + sent[..i + 1] && sent[i..][1..] == sent[i + 1..];
    blocked, rest, o := ReceiveOne(chan, o0, withMeta, sent[i..]);
  }

  /** Receive what rank j announced; the channel is then empty. */
  method ReceiveFrom<T>(chan: seq<Message<T>>, o0: Output<T>, withMeta: bool, ghost sent: seq<Record<T>>, ghost recs: seq<Record<T>>)
    returns (blocked: bool, rest: seq<Message<T>>, o: Output<T>)
    requires chan == [Count(|sent|)] + WireAll(sent, withMeta) && o0 == OutputOf(o0.header, recs, withMeta)
    ensures !blocked && rest == [] && o == OutputOf(o0.header, recs + sent, withMeta)
  {
    blocked, rest, o := true, chan, o0;
    if |chan| == 0 || !chan[0].Count? {
      return;
    }
    var recv := chan[0].n;
    blocked, rest := false, chan[1..];
    var i := 0;
    assert recs + sent[..0] == recs && sent[0..] == sent;
    while i < recv
      invariant 0 <= i <= |sent| == recv && !blocked && o.header == o0.header
      invariant Received(rest, o, o0.header, sent, recs, i, withMeta)
    {
      blocked, rest, o := ReceiveNext(rest, o, withMeta, sent, recs, i);
      if blocked {
        return;
      }
      i := i + 1;
    }
    assert recs + sent[..i] == recs + sent;
  }

  /** The contributions of all ranks, in rank order. */
  function Flatten<T>(parts: seq<seq<Record<T>>>): seq<Record<T>> {
    if parts == [] then [] else Flatten(parts[..|parts| - 1]) + parts[|parts| - 1]
  }

  /** What a rank puts on its channel to the owner. */
  function Announce<T>(part: seq<Record<T>>, withMeta: bool): seq<Message<T>> {
    [Count(|part|)] + WireAll(part, withMeta)
  }

  /** The channels of the first j ranks are empty, the others hold what their rank announced. */
  ghost predicate Drained<T>(chans: seq<seq<Message<T>>>, parts: seq<seq<Record<T>>>, owner: nat, withMeta: bool, j: nat) {
    |chans| == |parts| && forall i | 0 <= i < |chans| && i != owner :: DrainedAt(chans[i], parts[i], withMeta, i < j)
  }

  ghost predicate DrainedAt<T>(chan: seq<Message<T>>, part: seq<Record<T>>, withMeta: bool, done: bool) {
    chan == if done then [] else Announce(part, withMeta)
  }

  lemma {:induction false} FlattenNext<T>(parts: seq<seq<Record<T>>>, j: nat)
    requires j < |parts|
    ensures Flatten(parts[..j + 1]) == Flatten(parts[..j]) + parts[j]
  {
    assert parts[..j + 1][..j] == parts[..j];
  }

  /** Rank j's turn: its own vectors from the labels, another rank's from the channel. */
  method CollectOne<T>(owner: nat, j: nat, chans: seq<seq<Message<T>>>, labels: seq<seq<int>>, own: seq<Record<T>>, k: int,
                       o0: Output<T>, withMeta: bool, ghost parts: seq<seq<Record<T>>>)
    returns (blocked: bool, left: seq<seq<Message<T>>>, o: Output<T>)
    requires owner < |parts| && j < |parts| && |labels| == |own| && parts[owner] == Selected(labels, own, k)
    requires Drained(chans, parts, owner, withMeta, j) && o0 == OutputOf(o0.header, Flatten(parts[..j]), withMeta)
    ensures !blocked && Drained(left, parts, owner, withMeta, j + 1)
    ensures o == OutputOf(o0.header, Flatten(parts[..j + 1]), withMeta)
  {
    FlattenNext(parts, j);
    blocked, left := false, chans;
    if j != owner {
      assert DrainedAt(chans[j], parts[j], withMeta, false);
      var rest;
      blocked, rest, o := ReceiveFrom(chans[j], o0, withMeta, parts[j], Flatten(parts[..j]));
      left := chans[j := rest];
    } else {
      o := WriteOwn(labels, own, k, withMeta, o0, Flatten(parts[..j]));
    }
    forall i | 0 <= i < |left| && i != owner ensures DrainedAt(left[i], parts[i], withMeta, i < j + 1) {
      assert DrainedAt(chans[i], parts[i], withMeta, i < j);
    }
  }

  /** The owner of cluster k collects from all ranks in order: it never blocks on a receive, it drains every
      channel, and its files hold exactly the records of the label cells that name k. */
  method Collect<T>(owner: nat, chans: seq<seq<Message<T>>>, labels: seq<seq<int>>, own: seq<Record<T>>, k: int,
                    header: int, withMeta: bool, ghost parts: seq<seq<Record<T>>>)
    returns (blocked: bool, left: seq<seq<Message<T>>>, o: Output<T>)
    requires owner < |parts| && |labels| == |own| && parts[owner] == Selected(labels, own, k)
    requires Drained(chans, parts, owner, withMeta, 0)
    ensures !blocked && Drained(left, parts, owner, withMeta, |parts|)
    ensures o == Closed(OutputOf(header, Flatten(parts), withMeta), withMeta)
  {
    o, left, blocked := Output(header, [], [], []), chans, false;
    var j := 0;
    while j < |chans|
      invariant 0 <= j <= |chans| && !blocked && Drained(left, parts, owner, withMeta, j)
      invariant o == OutputOf(header, Flatten(parts[..j]), withMeta)
    {
      blocked, left, o := CollectOne(owner, j, left, labels, own, k, o, withMeta, parts);
      j := j + 1;
    }
    assert parts[..j] == parts;
    o := Closed(o, withMeta);
  }

  // ---- Announcement, messages and header agree after every complete run ----

  lemma {:induction false} FlattenSize<T>(ranks: seq<RankState>, parts: seq<seq<Record<T>>>, k: nat)
    requires |ranks| == |parts| && forall r | 0 <= r < |ranks| :: k < |ranks[r].counts| && |parts[r]| == ranks[r].counts[k]
    ensures |Flatten(parts)| == Global(ranks, k)
  {
    if ranks != [] {
      FlattenSize(ranks[..|ranks| - 1], parts[..|parts| - 1], k);
    }
  }

  /** After a complete run every rank announces exactly the vectors it sends, and the header the owner writes is
      the number of vectors in its file. */
  lemma ExchangeAgrees<T>(g: Config, t: seq<Stage>, recs: seq<seq<Record<T>>>, parts: seq<seq<Record<T>>>, k: nat, withMeta: bool)
    requires ConfigOk(g) && IsRun(g, t) && |t| == g.columns && k < g.clusters
    requires |parts| == |recs| == |g.data| && RanksFit(g, t[g.columns - 1].done)
    requires forall r | 0 <= r < |recs| :: |recs[r]| == |g.data[r]| && parts[r] == Selected(t[g.columns - 1].done[r].labels, recs[r], k)
    ensures var done := t[g.columns - 1].done;
            && (forall r | 0 <= r < |done| :: Announce(parts[r], withMeta)[0] == Count(done[r].counts[k]))
            && (forall r | 0 <= r < |done| :: |parts[r]| == done[r].counts[k])
            && |Closed(OutputOf(Global(done, k), Flatten(parts), withMeta), withMeta).vectors| == Global(done, k)
  {
    var done := t[g.columns - 1].done;
    forall r | 0 <= r < |done| ensures |parts[r]| == done[r].counts[k] {
      CountsAreLabelCells(g, t, g.columns - 1, r, k);
      SelectedSize(done[r].labels, recs[r], k, g.columns);
    }
    FlattenSize(done, parts, k);
  }
}
