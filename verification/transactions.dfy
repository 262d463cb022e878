/** Group transactions of the feature loop.

    With a group size G > 0 the loop opens one transaction before the
    first feature.  Every part then pre-increments the counter
    nFeaturesInTransaction; when the counter reaches G the loop commits,
    starts a new transaction and resets the counter to 0.  The open
    transaction is committed after the last feature.  With G <= 0 the
    counter never reaches G and no transaction call is made.

    `Replay` follows the calls a layer receives and counts the ones that
    do not match its transaction state: a commit or rollback with no
    transaction open, or a start while one is open. */
module Transactions {

  // ----- The counter -----

  /** The number of times the counter reached the group size, and the
      counter's value afterwards. */
  datatype Tally = Tally(fires: nat, counter: int)

  /** One pre-increment of the counter against group size g. */
  function Tick(g: int, c: int): Tally {
    if c + 1 == g then Tally(1, 0) else Tally(0, c + 1)
  }

  /** k consecutive pre-increments, starting from counter c. */
  function Ticks(g: int, c: int, k: nat): Tally
    decreases k
  {
    if k == 0 then Tally(0, c)
    else
      var t := Tick(g, c);
      var rest := Ticks(g, t.counter, k - 1);
      Tally(t.fires + rest.fires, rest.counter)
  }

  /** Splitting a run of ticks in two. */
  lemma {:induction false} TicksSplit(g: int, c: int, k1: nat, k2: nat)
    ensures var a := Ticks(g, c, k1);
            var b := Ticks(g, a.counter, k2);
            Ticks(g, c, k1 + k2) == Tally(a.fires + b.fires, b.counter)
    decreases k1
  {
    if k1 > 0 {
      TicksSplit(g, Tick(g, c).counter, k1 - 1, k2);
      assert k1 + k2 - 1 == (k1 - 1) + k2;
    }
  }

  lemma ShiftByGroup(g: int, x: int)
    requires g > 0 && x >= 0
    ensures (g + x) / g == 1 + x / g && (g + x) % g == x % g
  {
    var q, r := x / g, x % g;
    assert x == q * g + r;
    assert g + x == (q + 1) * g + r;
    DivModUnique(g + x, g, q + 1, r);
  }

  lemma MulAtLeast(d: int, g: int)
    ensures d >= 1 && g > 0 ==> d * g >= g
  {
    if d >= 1 && g > 0 {
      assert d * g == (d - 1) * g + g;
    }
  }

  lemma DivModUnique(a: int, g: int, q: int, r: int)
    requires g > 0 && a == q * g + r && 0 <= r < g
    ensures a / g == q && a % g == r
  {
    var q', r' := a / g, a % g;
    assert a == q' * g + r';
    assert (q - q') * g == r' - r;
    assert (q' - q) * g == r - r';
    MulAtLeast(q - q', g);
    MulAtLeast(q' - q, g);
  }

  /** With G > 0, starting below G, k ticks fire (c + k) / G times and
      leave the counter at (c + k) % G. */
  lemma {:induction false} TicksClosedForm(g: int, c: int, k: nat)
    requires g > 0 && 0 <= c < g
    ensures Ticks(g, c, k) == Tally((c + k) / g, (c + k) % g)
    decreases k
  {
    if k == 0 {
      DivModUnique(c, g, 0, c);
    } else if c + 1 == g {
      TicksClosedForm(g, 0, k - 1);
      ShiftByGroup(g, k - 1);
      assert c + k == g + (k - 1);
    } else {
      TicksClosedForm(g, c + 1, k - 1);
      assert c + k == (c + 1) + (k - 1);
    }
  }

  /** The transaction opened before the loop takes G - 1 parts: the
      first commit happens at the G-th part, before that part is
      written. */
  lemma FirstGroupHoldsOneLess(g: int, k: nat)
    requires g > 0
    ensures Ticks(g, 0, k).fires == 0 <==> k < g
  {
    TicksClosedForm(g, 0, k);
    if k >= g {
      ShiftByGroup(g, k - g);
      assert k == g + (k - g);
    } else {
      DivModUnique(k, g, 0, k);
    }
  }

  /** With G <= 0 the counter only grows and never fires. */
  lemma {:induction false} UngroupedNeverFires(g: int, c: int, k: nat)
    requires g <= 0 && c >= 0
    ensures Ticks(g, c, k) == Tally(0, c + k)
    decreases k
  {
    if k > 0 {
      UngroupedNeverFires(g, c + 1, k - 1);
    }
  }

  // ----- Transaction calls as the layer sees them -----

  datatype TxCall = StartCall | CommitCall | RollbackCall

  datatype TxState = Idle | Open

  /** The layer's transaction state and the number of calls so far that
      did not match it. */
  datatype Audit = Audit(state: TxState, misuses: nat)

  /** A call that does not match the state is counted and otherwise
      ignored; a matching one opens or closes the transaction. */
  function Apply(a: Audit, call: TxCall): (r: Audit)
    ensures r.misuses == a.misuses <==>
              (call == StartCall && a.state == Idle) || (call != StartCall && a.state == Open)
    ensures r.misuses == a.misuses ==> (r.state == Open <==> call == StartCall)
    ensures r.misuses != a.misuses ==> r == Audit(a.state, a.misuses + 1)
  {
    var expected := if call == StartCall then Idle else Open;
    var next := if call == StartCall then Open else Idle;
    if a.state == expected then Audit(next, a.misuses) else Audit(a.state, a.misuses + 1)
  }

  function Replay(a: Audit, calls: seq<TxCall>): Audit
    decreases |calls|
  {
    if |calls| == 0 then a else Replay(Apply(a, calls[0]), calls[1..])
  }

  lemma {:induction false} ReplayAppend(a: Audit, xs: seq<TxCall>, ys: seq<TxCall>)
    ensures Replay(a, xs + ys) == Replay(Replay(a, xs), ys)
    decreases |xs|
  {
    if |xs| == 0 {
      assert xs + ys == ys;
    } else {
      assert (xs + ys)[1..] == xs[1..] + ys;
      ReplayAppend(Apply(a, xs[0]), xs[1..], ys);
    }
  }

  /** Replaying never forgets a misuse. */
  lemma {:induction false} MisusesOnlyGrow(a: Audit, calls: seq<TxCall>)
    ensures Replay(a, calls).misuses >= a.misuses
    decreases |calls|
  {
    if |calls| > 0 {
      MisusesOnlyGrow(Apply(a, calls[0]), calls[1..]);
    }
  }

  function CountCommits(calls: seq<TxCall>): nat
    decreases |calls|
  {
    if |calls| == 0 then 0 else (if calls[0] == CommitCall then 1 else 0) + CountCommits(calls[1..])
  }

  lemma {:induction false} CountCommitsAppend(xs: seq<TxCall>, ys: seq<TxCall>)
    ensures CountCommits(xs + ys) == CountCommits(xs) + CountCommits(ys)
    decreases |xs|
  {
    if |xs| == 0 {
      assert xs + ys == ys;
    } else {
      assert (xs + ys)[1..] == xs[1..] + ys;
      CountCommitsAppend(xs[1..], ys);
    }
  }
}
