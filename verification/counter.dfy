/** The demo counter: an unbounded integer changed one step at a time by a
    "-" and a "+" button. */
module Counter {

  datatype Counter = Counter(count: int)

  /** The counter starts at zero. */
  const Initial: Counter := Counter(0)

  datatype Button = Minus | Plus

  /** "+": one more. */
  function Increment(c: Counter): (r: Counter)
    ensures r.count == c.count + 1
  {
    Counter(c.count + 1)
  }

  /** "-": one less, with no lower bound. */
  function Decrement(c: Counter): (r: Counter)
    ensures r.count == c.count - 1
  {
    Counter(c.count - 1)
  }

  function Press(c: Counter, b: Button): Counter {
    match b
    case Plus => Increment(c)
    case Minus => Decrement(c)
  }

  function Run(c: Counter, bs: seq<Button>): Counter
    decreases |bs|
  {
    if |bs| == 0 then c else Run(Press(c, bs[0]), bs[1..])
  }

  /** How many presses of `b` a sequence holds. */
  function Occurrences(bs: seq<Button>, b: Button): nat
    decreases |bs|
  {
    if |bs| == 0 then 0 else (if bs[0] == b then 1 else 0) + Occurrences(bs[1..], b)
  }

  /** "+" then "-", or "-" then "+", leaves the count where it was. */
  lemma StepsCancel(c: Counter)
    ensures Decrement(Increment(c)) == c
    ensures Increment(Decrement(c)) == c
  {
  }

  /** The count after any presses is the start plus the "+" presses minus
      the "-" presses; order does not matter. */
  lemma {:induction false} RunCounts(c: Counter, bs: seq<Button>)
    ensures Run(c, bs).count == c.count + Occurrences(bs, Plus) - Occurrences(bs, Minus)
    decreases |bs|
  {
    if |bs| > 0 {
      RunCounts(Press(c, bs[0]), bs[1..]);
    }
  }

  /** `n` presses of "-" from the start reach `-n`: the count goes negative. */
  lemma NoLowerBound(n: nat)
    ensures Run(Initial, seq(n, _ => Minus)).count == -(n as int)
  {
    var bs := seq(n, _ => Minus);
    RunCounts(Initial, bs);
    OnlyMinus(bs);
  }

  lemma {:induction false} OnlyMinus(bs: seq<Button>)
    requires forall i :: 0 <= i < |bs| ==> bs[i] == Minus
    ensures Occurrences(bs, Plus) == 0 && Occurrences(bs, Minus) == |bs|
    decreases |bs|
  {
    if |bs| > 0 {
      OnlyMinus(bs[1..]);
    }
  }
}
