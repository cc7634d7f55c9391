/**
 The wake-ups for one event a broker holds: what the delivery protocol assumes of every broker, and what the
 RabbitMQ consumer is proved to do.
 */
module Wakeups {
  import opened Wrappers

  /** An unacknowledged wake-up and the delivery it is out on. A wake-up that is republished instead of being
      acknowledged starts or continues a chain; `replaced` says that a later one of its chain has been stored. */
  datatype Copy = Copy(durable: bool, holder: Option<nat>, chain: nat, replaced: bool)

  type Copies = map<nat, Copy>

  datatype Move =
    | Store(c: nat, durable: bool)
    | HandOut(c: nat, t: nat)
    | AckBy(c: nat, t: nat)
    | AckReplaced(c: nat, t: nat)
    | TakeBack(c: nat)
    | Replace(chain: nat, twin: nat)
    | Drop(c: nat)

  /** An acknowledgement counts only while the wake-up is out on the delivery that sends it; only a wake-up that is
      not durable disappears unacknowledged. */
  predicate Allowed(copies: Copies, m: Move) {
    match m
    case Store(c, _) => c !in copies
    case HandOut(c, _) => c in copies && copies[c].holder == None
    case AckBy(c, t) => c in copies && copies[c].holder == Some(t)
    case AckReplaced(c, t) => c in copies && copies[c].holder == Some(t) && copies[c].replaced
    case TakeBack(c) => c in copies
    case Replace(_, twin) => twin !in copies
    case Drop(c) => c in copies && !copies[c].durable
  }

  function Moved(copies: Copies, m: Move): Copies
    requires Allowed(copies, m)
  {
    match m
    case Store(c, durable) => copies[c := Copy(durable, None, c, false)]
    case HandOut(c, t) => copies[c := copies[c].(holder := Some(t))]
    case AckBy(c, _) => copies - {c}
    case AckReplaced(c, _) => copies - {c}
    case TakeBack(c) => copies[c := copies[c].(holder := None)]
    case Replace(chain, twin) => Superseded(copies, chain)[twin := Copy(true, None, chain, false)]
    case Drop(c) => copies - {c}
  }

  function Superseded(copies: Copies, chain: nat): Copies {
    map c | c in copies :: if copies[c].chain == chain then copies[c].(replaced := true) else copies[c]
  }

  /** A durable wake-up that nothing has replaced. */
  ghost predicate HasDurable(copies: Copies) {
    exists c :: c in copies && copies[c].durable && !copies[c].replaced
  }

  /** Only the acknowledgement of a delivery that needs no other can take the last durable wake-up away. */
  lemma OnlyAckTakesDurable(copies: Copies, m: Move)
    requires HasDurable(copies) && Allowed(copies, m) && !m.AckBy?
    ensures HasDurable(Moved(copies, m))
  {
    var c :| c in copies && copies[c].durable && !copies[c].replaced;
    if m.Replace? {
      assert m.twin in Moved(copies, m);
    } else {
      assert c in Moved(copies, m) && Moved(copies, m)[c].durable && !Moved(copies, m)[c].replaced;
    }
  }

  // ---- several moves ----

  predicate AllAllowed(copies: Copies, moves: seq<Move>)
    decreases |moves|
  {
    moves == [] || (Allowed(copies, moves[0]) && AllAllowed(Moved(copies, moves[0]), moves[1..]))
  }

  function MovedBy(copies: Copies, moves: seq<Move>): Copies
    requires AllAllowed(copies, moves)
    decreases |moves|
  {
    if moves == [] then copies else MovedBy(Moved(copies, moves[0]), moves[1..])
  }

  lemma {:induction false} MovesCompose(copies: Copies, a: seq<Move>, b: seq<Move>)
    requires AllAllowed(copies, a) && AllAllowed(MovedBy(copies, a), b)
    ensures AllAllowed(copies, a + b) && MovedBy(copies, a + b) == MovedBy(MovedBy(copies, a), b)
    decreases |a|
  {
    if a == [] {
      assert a + b == b;
    } else {
      assert (a + b)[0] == a[0] && (a + b)[1..] == a[1..] + b;
      MovesCompose(Moved(copies, a[0]), a[1..], b);
    }
  }

  lemma OneMove(copies: Copies, m: Move)
    requires Allowed(copies, m)
    ensures AllAllowed(copies, [m]) && MovedBy(copies, [m]) == Moved(copies, m)
  {
    var rest := [m][1..];
    assert rest == [];
    assert AllAllowed(Moved(copies, m), rest);
  }

  /** All of these wake-ups are taken back. */
  function Freed(copies: Copies, lost: set<nat>): Copies {
    map c | c in copies :: if c in lost then copies[c].(holder := None) else copies[c]
  }

  lemma {:induction false} FreedByMoves(copies: Copies, lost: set<nat>) returns (moves: seq<Move>)
    ensures AllAllowed(copies, moves) && MovedBy(copies, moves) == Freed(copies, lost)
    ensures forall i :: 0 <= i < |moves| ==> moves[i].TakeBack?
  {
    if lost == {} {
      moves := [];
      assert Freed(copies, lost) == copies;
    } else {
      var c :| c in lost;
      moves := FreedByMoves(copies, lost - {c});
      var mid := Freed(copies, lost - {c});
      if c in copies {
        OneMove(mid, TakeBack(c));
        MovesCompose(copies, moves, [TakeBack(c)]);
        moves := moves + [TakeBack(c)];
        assert Moved(mid, TakeBack(c)) == Freed(copies, lost);
      } else {
        assert mid == Freed(copies, lost);
      }
    }
  }
}
