/**
 The file-chunk ledger: chunks arrive in any order, are repeated and compacted; a file is reported
 complete exactly when its chunks are all there.
 */
module FileChunks {
  import opened Wrappers
  import Timestamps

  datatype Slot = Slot(file: string, index: int)

  datatype Chunk = Chunk(total: int, message: string, updated: string)

  type Chunks = map<Slot, Chunk>

  /** The rows of one file share their total. */
  ghost predicate Uniform(c: Chunks)
  {
    forall a, b :: a in c && b in c && a.file == b.file ==> c[a].total == c[b].total
  }

  datatype Refusal = Incomplete | TotalMismatch

  datatype Stored = Stored(chunks: Chunks) | Refused(why: Refusal)

  /** `upsertFileChunkEnvelope`; an index or total that is no whole number is `None`. */
  function Store(c: Chunks, file: string, index: Option<int>, total: Option<int>, message: string, now: string): Stored
  {
    if index.None? || total.None? then Refused(Incomplete)
    else if exists s :: s in c && s.file == file && c[s].total != total.value then Refused(TotalMismatch)
    else Stored(c[Slot(file, index.value) := Chunk(total.value, message, now)])
  }

  /** A possible answer of its query for the file's total, which takes any one row. */
  predicate IsAnyTotal(c: Chunks, file: string, found: Option<int>)
  {
    if found.None? then forall s :: s in c ==> s.file != file
    else exists s :: s in c && s.file == file && c[s].total == found.value
  }

  /** The rows being uniform, the row the query happens to take decides like all of them. */
  lemma AnyRowDecides(c: Chunks, file: string, found: Option<int>, index: int, total: int, message: string, now: string)
    requires Uniform(c) && IsAnyTotal(c, file, found)
    ensures Store(c, file, Some(index), Some(total), message, now) ==
              if found.Some? && found.value != total then Refused(TotalMismatch)
              else Stored(c[Slot(file, index) := Chunk(total, message, now)])
  {
    if found.Some? {
      var s :| s in c && s.file == file && c[s].total == found.value;
      assert c[s].total == total || Store(c, file, Some(index), Some(total), message, now) == Refused(TotalMismatch);
    }
  }

  lemma StoreKeepsUniform(c: Chunks, file: string, index: Option<int>, total: Option<int>, message: string, now: string)
    requires Uniform(c)
    ensures var r := Store(c, file, index, total, message, now); r.Stored? ==> Uniform(r.chunks)
  {
  }

  /** The chunk part of `Compact` */
  function Compacted(c: Chunks, cutoff: string): Chunks
  {
    map slot | slot in c && !Timestamps.Less(c[slot].updated, cutoff) :: c[slot]
  }

  lemma ChunkKeptIff(c: Chunks, cutoff: string, slot: Slot)
    requires slot in c
    ensures slot in Compacted(c, cutoff) <==> !Timestamps.Less(c[slot].updated, cutoff)
    ensures slot in Compacted(c, cutoff) ==> Compacted(c, cutoff)[slot] == c[slot]
  {
  }

  lemma CompactionKeepsUniform(c: Chunks, cutoff: string)
    requires Uniform(c)
    ensures Uniform(Compacted(c, cutoff))
  {
  }

  // ---------------------------------------------------------------------------------------------
  // Progress

  function Indices(c: Chunks, file: string): set<int> { set s | s in c && s.file == file :: s.index }

  function Rows(c: Chunks, file: string): set<Slot> { set s | s in c && s.file == file }

  predicate IsMax(xs: set<int>, m: int) { m in xs && forall x :: x in xs ==> x <= m }

  predicate IsMin(xs: set<int>, m: int) { m in xs && forall x :: x in xs ==> m <= x }

  function Totals(c: Chunks, file: string): set<int> { set s | s in c && s.file == file :: c[s].total }

  datatype Progress = Progress(received: nat, total: int, highest: int, lowest: int)

  /** What the aggregates of the query mean: COUNT, and MAX and MIN or their defaults without rows. */
  ghost predicate IsProgress(c: Chunks, file: string, p: Progress)
  {
    && p.received == |Rows(c, file)|
    && (if Rows(c, file) == {} then p.total == 0 && p.highest == -1 && p.lowest == -1
        else IsMax(Totals(c, file), p.total) && IsMax(Indices(c, file), p.highest) && IsMin(Indices(c, file), p.lowest))
  }

  predicate Complete(p: Progress) { p.total > 0 && p.received == p.total && p.lowest == 0 && p.highest == p.total - 1 }

  lemma {:induction false} IndicesSize(rows: set<Slot>, file: string)
    requires forall s :: s in rows ==> s.file == file
    ensures |set s | s in rows :: s.index| == |rows|
  {
    if rows == {} {
    } else {
      var r :| r in rows;
      var rest := rows - {r};
      IndicesSize(rest, file);
      assert (set s | s in rows :: s.index) == (set s | s in rest :: s.index) + {r.index};
      assert r.index !in (set s | s in rest :: s.index) by {
        forall s | s in rest ensures s.index != r.index {
          assert s.file == r.file && s != r;
        }
      }
    }
  }

  function Below(n: nat): (r: set<int>)
    ensures forall x :: x in r <==> 0 <= x < n
    ensures |r| == n
  {
    if n == 0 then {} else Below(n - 1) + {n - 1}
  }

  /** As many different numbers as there are places, all in place: every place is taken. */
  lemma Pigeonhole(xs: set<int>, n: nat)
    requires forall x :: x in xs ==> 0 <= x < n
    ensures xs == Below(n) <==> |xs| == n
  {
    if |xs| == n {
      assert xs <= Below(n);
      var missing := Below(n) - xs;
      assert Below(n) == xs + missing;
    }
  }

  /** A file is reported complete exactly when it has chunks 0 to total - 1 and no others, for a
      positive total, which all its rows name. */
  lemma CompleteIffAllChunks(c: Chunks, file: string, p: Progress)
    requires Uniform(c) && IsProgress(c, file, p)
    ensures Complete(p) <==> p.total > 0 && Indices(c, file) == Below(p.total)
    ensures forall s :: s in c && s.file == file ==> c[s].total == p.total
  {
    var rows, xs := Rows(c, file), Indices(c, file);
    IndicesSize(rows, file);
    assert xs == (set s | s in rows :: s.index);
    if rows != {} {
      if p.total > 0 && (Complete(p) || xs == Below(p.total)) {
        Pigeonhole(xs, p.total);
        if xs == Below(p.total) {
          assert 0 in xs && p.total - 1 in xs;
        }
      }
    }
    forall s | s in c && s.file == file ensures c[s].total == p.total {
      assert s in rows && c[s].total in Totals(c, file);
      var t :| t in c && t.file == file && c[t].total == p.total;
    }
  }
}
