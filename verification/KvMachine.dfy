/** Operations of the key-value store and the machine that applies them (kv/types.py, kv/state_machine.py). */
module KvMachine {
  import opened Wrappers

  datatype Value = Text(text: string) | Number(number: int)

  /** Keys and identifiers are never empty. */
  type Name = s: string | s != "" witness "n"

  datatype Operation =
    | Put(key: Name, value: Value)
    | Delete(key: Name)
    | CompareAndSet(key: Name, expected: Option<Value>, value: Value)
    | Increment(key: Name, delta: int)

  datatype Code = APPLIED | NOT_FOUND | CAS_MISMATCH | TYPE_MISMATCH

  datatype KvResult = KvResult(code: Code, value: Option<Value>)

  datatype Envelope = Envelope(clientId: Name, requestId: Name, operation: Operation)

  datatype Effect = Effect(values: map<string, Value>, result: KvResult)

  function Lookup(values: map<string, Value>, key: string): Option<Value> {
    if key in values then Some(values[key]) else None
  }

  /** The number a key holds, 0 while it is absent. */
  function NumberAt(values: map<string, Value>, key: string): int {
    if key in values && values[key].Number? then values[key].number else 0
  }

  /**
   An operation touches its own key only, and only when it reports APPLIED. What a write reports is what
   the key then holds, and it is the value asked for, or for an increment the old number and the delta
   together; a delete reports what it removed, and a refused operation what the key holds.
   */
  function ApplyOperation(values: map<string, Value>, operation: Operation): (effect: Effect)
    ensures effect.result.code != APPLIED ==> effect.values == values
    ensures forall k :: k != operation.key ==> Lookup(effect.values, k) == Lookup(values, k)
    ensures effect.result.code == CAS_MISMATCH <==>
      operation.CompareAndSet? && Lookup(values, operation.key) != operation.expected
    ensures effect.result.code == NOT_FOUND <==> operation.Delete? && operation.key !in values
    ensures effect.result.code == TYPE_MISMATCH <==>
      operation.Increment? && operation.key in values && values[operation.key].Text?
    ensures effect.result.code == APPLIED && !operation.Delete? ==>
      effect.result.value.Some? && Lookup(effect.values, operation.key) == effect.result.value
    ensures effect.result.code == APPLIED && (operation.Put? || operation.CompareAndSet?) ==>
      effect.result.value == Some(operation.value)
    ensures effect.result.code == APPLIED && operation.Increment? ==>
      effect.result.value == Some(Number(NumberAt(values, operation.key) + operation.delta))
    ensures effect.result.code == APPLIED && operation.Delete? ==>
      operation.key !in effect.values && effect.result.value == Lookup(values, operation.key)
    ensures effect.result.code != APPLIED ==> effect.result.value == Lookup(values, operation.key)
  {
    match operation
    case Put(key, value) =>
      Effect(values[key := value], KvResult(APPLIED, Some(value)))
    case Delete(key) =>
      if key !in values then Effect(values, KvResult(NOT_FOUND, None))
      else Effect(values - {key}, KvResult(APPLIED, Some(values[key])))
    case CompareAndSet(key, expected, value) =>
      if Lookup(values, key) != expected then Effect(values, KvResult(CAS_MISMATCH, Lookup(values, key)))
      else Effect(values[key := value], KvResult(APPLIED, Some(value)))
    case Increment(key, delta) =>
      var current := if key in values then values[key] else Number(0);
      if current.Text? then Effect(values, KvResult(TYPE_MISMATCH, Some(current)))
      else
        var sum := Number(current.number + delta);
        Effect(values[key := sum], KvResult(APPLIED, Some(sum)))
  }

  class KvStateMachine {
    var values: map<string, Value>

    constructor (initial: map<string, Value>)
      ensures values == initial
    {
      values := initial;
    }

    method Apply(operation: Operation) returns (result: KvResult)
      modifies this
      ensures Effect(values, result) == ApplyOperation(old(values), operation)
    {
      match operation
      case Put(key, value) =>
        values := values[key := value];
        result := KvResult(APPLIED, Some(value));
      case Delete(key) =>
        if key !in values {
          return KvResult(NOT_FOUND, None);
        }
        result := KvResult(APPLIED, Some(values[key]));
        values := values - {key};
      case CompareAndSet(key, expected, value) =>
        var current := Lookup(values, key);
        if current != expected {
          return KvResult(CAS_MISMATCH, current);
        }
        values := values[key := value];
        result := KvResult(APPLIED, Some(value));
      case Increment(key, delta) =>
        var current := if key in values then values[key] else Number(0);
        if current.Text? {
          return KvResult(TYPE_MISMATCH, Some(current));
        }
        var sum := Number(current.number + delta);
        values := values[key := sum];
        result := KvResult(APPLIED, Some(sum));
    }
  }
}
