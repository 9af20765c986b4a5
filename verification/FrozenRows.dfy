/** Blocked and hidden rows: nothing but a moderator changes them. */
module FrozenRows {
  import opened Prelude
  import opened RawProducts
  import opened Products
  import opened Catalogues
  import opened Shops
  import opened UpsertBatches

  /** The operation would, if it could, write data into row k or send it to the catalogue. */
  predicate Targets(op: Op, k: Key) {
    (op.Observe? || op.SyncRow?) && Subject(op) == k
  }

  /**
   One operation on a frozen row: its data, history and sync mark stay, it is not sent to the
   catalogue, and an observation of it is refused, so not counted. A hidden row does not change at
   all.
   */
  lemma FrozenStep(s: Shop, op: Op, k: Key)
    requires WellFormed(s) && k in s.rows && (s.rows[k].blocked || s.rows[k].hiddenAt.Some?)
    ensures var t := Step(s, op);
            && k in t.rows && t.rows[k].info == s.rows[k].info && t.rows[k].syncedAt == s.rows[k].syncedAt
            && PricesOf(t, k) == PricesOf(s, k)
            && (Targets(op, k) ==> t == s)
            && (s.rows[k].hiddenAt.Some? ==> t.rows[k] == s.rows[k])
            && (t.rows[k].blocked || t.rows[k].hiddenAt.Some? || op == SetBlocked(k, false))
    ensures op.Observe? && Targets(op, k) && op.raw.title != "" ==> VerdictOn(s.rows, k, op.raw) == Refused
  {
    if Subject(op) != k {
      StepElsewhere(s, op, k);
    } else if op.Observe? && op.raw.title != "" {
      SavedExisting(s, InMemory(s, op.tenant, op.source, op.raw, op.now), op.raw, op.now);
    }
  }

  /** Once hidden, a row is the same after any operations, and stays hidden. */
  lemma {:induction false} HiddenForever(s: Shop, ops: seq<Op>, k: Key)
    requires WellFormed(s) && k in s.rows && s.rows[k].hiddenAt.Some?
    ensures var t := Run(s, ops);
            k in t.rows && t.rows[k] == s.rows[k] && PricesOf(t, k) == PricesOf(s, k)
  {
    if ops != [] {
      var front := ops[..|ops| - 1];
      HiddenForever(s, front, k);
      RunKeepsWellFormed(s, front);
      FrozenStep(Run(s, front), ops[|ops| - 1], k);
    }
  }

  /** Until a moderator unblocks it, a blocked row keeps data, history and sync mark. */
  lemma {:induction false} BlockedUntilUnblocked(s: Shop, ops: seq<Op>, k: Key)
    requires WellFormed(s) && k in s.rows && (s.rows[k].blocked || s.rows[k].hiddenAt.Some?)
    requires forall i :: 0 <= i < |ops| ==> ops[i] != SetBlocked(k, false)
    ensures var t := Run(s, ops);
            && k in t.rows && (t.rows[k].blocked || t.rows[k].hiddenAt.Some?) && t.rows[k].info == s.rows[k].info
            && t.rows[k].syncedAt == s.rows[k].syncedAt && PricesOf(t, k) == PricesOf(s, k)
  {
    if ops != [] {
      var front := ops[..|ops| - 1];
      BlockedUntilUnblocked(s, front, k);
      RunKeepsWellFormed(s, front);
      FrozenStep(Run(s, front), ops[|ops| - 1], k);
    }
  }

  /**
   Over any run of scrapes, syncs, blocks and hides of any products: an operation aimed at a row that
   is frozen at its turn leaves no trace anywhere, the catalogue included, and an observation among
   them is refused or ignored, so not counted as updated or created.
   */
  lemma FrozenRowsAreNotSent(s: Shop, ops: seq<Op>, i: nat, k: Key)
    requires WellFormed(s) && i < |ops| && Targets(ops[i], k)
    requires var rows := Run(s, ops[..i]).rows;
             k in rows && (rows[k].blocked || rows[k].hiddenAt.Some?)
    ensures Run(s, ops[..i + 1]) == Run(s, ops[..i])
    ensures ops[i].Observe? ==>
              var v := VerdictOn(Run(s, ops[..i]).rows, k, ops[i].raw);
              && v == (if ops[i].raw.title != "" then Refused else Ignored)
              && forall other :: other != v ==> Count(s, ops[..i + 1], other) == Count(s, ops[..i], other)
  {
    RunKeepsWellFormed(s, ops[..i]);
    FrozenStep(Run(s, ops[..i]), ops[i], k);
    assert ops[..i + 1][..i] == ops[..i];
  }
}
