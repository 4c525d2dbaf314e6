/** Stores whose entries expire: what they answer, with and without cleaning up. */
module Expiry {
  import opened Strings

  /** An entry and the last instant it is good for; None is for ever. */
  datatype Entry = Entry(payload: string, last: Option<int>)

  type Store = map<string, Entry>

  predicate Expired(e: Entry, now: int) { e.last.Some? && e.last.value < now }

  /** Take is single use, Peek is not; Clean drops those of the entries named that have expired. */
  datatype Op =
    | Put(key: string, entry: Entry)
    | Take(key: string)
    | Peek(key: string)
    | Drop(key: string)
    | Clean(keys: set<string>)

  function Cleaned(s: Store, keys: set<string>, now: int): Store {
    map k | k in s && !(k in keys && Expired(s[k], now)) :: s[k]
  }

  function Answer(s: Store, now: int, op: Op): Option<string> {
    if (op.Take? || op.Peek?) && op.key in s && !Expired(s[op.key], now) then Some(s[op.key].payload) else None
  }

  /** An expired entry goes as soon as it is asked for. */
  function After(s: Store, now: int, op: Op): Store {
    match op
    case Put(k, e) => s[k := e]
    case Take(k) => s - {k}
    case Peek(k) => Cleaned(s, {k}, now)
    case Drop(k) => s - {k}
    case Clean(keys) => Cleaned(s, keys, now)
  }

  /** The store that keeps expired entries until they are taken or dropped. */
  function AfterKeeping(s: Store, now: int, op: Op): Store {
    if op.Peek? || op.Clean? then s else After(s, now, op)
  }

  type Timed = (int, Op)

  ghost predicate ClockRuns(ops: seq<Timed>) {
    forall i, j | 0 <= i < j < |ops| :: ops[i].0 <= ops[j].0
  }

  function Final(ops: seq<Timed>): Store {
    if ops == [] then map[]
    else var last := ops[|ops| - 1]; After(Final(ops[..|ops| - 1]), last.0, last.1)
  }

  function FinalKeeping(ops: seq<Timed>): Store {
    if ops == [] then map[]
    else var last := ops[|ops| - 1]; AfterKeeping(FinalKeeping(ops[..|ops| - 1]), last.0, last.1)
  }

  /** What the i-th operation is answered. */
  function AnswerAt(ops: seq<Timed>, i: nat): Option<string>
    requires i < |ops|
  {
    Answer(Final(ops[..i]), ops[i].0, ops[i].1)
  }

  function AnswerKeepingAt(ops: seq<Timed>, i: nat): Option<string>
    requires i < |ops|
  {
    Answer(FinalKeeping(ops[..i]), ops[i].0, ops[i].1)
  }

  /** Only entries that have expired by now are missing. */
  ghost predicate OnlyExpiredGone(s: Store, kept: Store, now: int) {
    && (forall k | k in s :: k in kept && s[k] == kept[k])
    && (forall k | k in kept && k !in s :: Expired(kept[k], now))
  }

  lemma {:induction false} OnlyExpiredGoes(ops: seq<Timed>, now: int)
    requires ClockRuns(ops) && (ops != [] ==> ops[|ops| - 1].0 <= now)
    ensures OnlyExpiredGone(Final(ops), FinalKeeping(ops), now)
  {
    if ops != [] {
      var last := ops[|ops| - 1];
      OnlyExpiredGoes(ops[..|ops| - 1], last.0);
    }
  }

  /** Cleaning up is invisible: whatever is asked and whenever, the answers are those of a store that never does. */
  lemma CleanupIsInvisible(ops: seq<Timed>, i: nat)
    requires ClockRuns(ops) && i < |ops|
    ensures AnswerAt(ops, i) == AnswerKeepingAt(ops, i)
  {
    OnlyExpiredGoes(ops[..i], ops[i].0);
  }

  /** No key is put in twice: keys are drawn at random. */
  ghost predicate FreshKeys(ops: seq<Timed>) {
    forall i, j | 0 <= i < j < |ops| && ops[i].1.Put? && ops[j].1.Put? :: ops[i].1.key != ops[j].1.key
  }

  lemma {:induction false} StoredWasPut(ops: seq<Timed>, k: string)
    requires k in Final(ops)
    ensures exists i :: 0 <= i < |ops| && ops[i].1 == Put(k, Final(ops)[k])
  {
    var last := ops[|ops| - 1].1;
    var before := ops[..|ops| - 1];
    if last.Put? && last.key == k {
      assert ops[|ops| - 1].1 == Put(k, Final(ops)[k]);
    } else {
      StoredWasPut(before, k);
      var i :| 0 <= i < |before| && before[i].1 == Put(k, Final(before)[k]);
      assert ops[i].1 == Put(k, Final(ops)[k]);
    }
  }

  /** What is accepted was stored before, under that key and with that payload, and has not expired. */
  lemma AcceptedWasIssued(ops: seq<Timed>, i: nat)
    requires i < |ops| && AnswerAt(ops, i).Some?
    ensures exists h, e :: 0 <= h < i && ops[h].1 == Put(ops[i].1.key, e) && e.payload == AnswerAt(ops, i).value
                           && !Expired(e, ops[i].0)
  {
    var k := ops[i].1.key;
    StoredWasPut(ops[..i], k);
    var h :| 0 <= h < |ops[..i]| && ops[..i][h].1 == Put(k, Final(ops[..i])[k]);
    assert ops[h].1 == Put(k, Final(ops[..i])[k]);
  }

  lemma {:induction false} GoneForGood(ops: seq<Timed>, k: string, i: nat, j: nat)
    requires FreshKeys(ops) && i <= j <= |ops| && k !in Final(ops[..i])
    requires exists h :: 0 <= h < i && ops[h].1.Put? && ops[h].1.key == k
    ensures k !in Final(ops[..j])
  {
    if i < j {
      GoneForGood(ops, k, i, j - 1);
      assert ops[..j][..j - 1] == ops[..j - 1];
      var h :| 0 <= h < i && ops[h].1.Put? && ops[h].1.key == k;
    }
  }

  /** A single-use key is accepted at most once. */
  lemma TakenOnce(ops: seq<Timed>, i: nat, j: nat)
    requires FreshKeys(ops) && i < j < |ops| && ops[i].1.Take? && ops[j].1 == ops[i].1
    ensures AnswerAt(ops, i).None? || AnswerAt(ops, j).None?
  {
    if AnswerAt(ops, i).Some? {
      AcceptedWasIssued(ops, i);
      assert ops[..i + 1][..i] == ops[..i];
      GoneForGood(ops, ops[i].1.key, i + 1, j);
    }
  }

  /** A key that has been issued and refused once is refused for good. */
  lemma RefusedForGood(ops: seq<Timed>, i: nat, j: nat)
    requires FreshKeys(ops) && i < j < |ops| && (ops[j].1.Take? || ops[j].1.Peek?)
    requires ops[i].1 in {Take(ops[j].1.key), Peek(ops[j].1.key)}
    requires exists h :: 0 <= h < i && ops[h].1.Put? && ops[h].1.key == ops[j].1.key
    requires AnswerAt(ops, i).None?
    ensures AnswerAt(ops, j).None?
  {
    assert ops[..i + 1][..i] == ops[..i];
    GoneForGood(ops, ops[j].1.key, i + 1, j);
  }
}
