/** `redactLogData`: the structural copy of a value about to be logged, with
    sensitive keys masked, Mongoose documents replaced by a marker, and
    objects already seen replaced by "[CIRCULAR]". The seen-set lives at
    module level and is never cleared, so it is the state of a `Redactor`.

    Object identity is a reference number: two occurrences of a value with
    the same `ref` are the same JavaScript object, which is how sharing and
    cycles show up in this finite tree. */
module RedactLogs {
  import opened Common

  /** A value handed to the logger. `Prim` is every value returned as it is:
      a primitive, or a falsy value such as `null`, `0` or `""`, written as
      its text. `ctor` is the constructor name of an object, if it has one. */
  datatype LogValue =
    | Prim(text: string)
    | Arr(ref: nat, items: seq<LogValue>)
    | Obj(ref: nat, ctor: Option<string>, fields: seq<Field>)

  /** One enumerable key of an object, in `for...in` order. */
  datatype Field = Field(key: string, value: LogValue)

  /** The redacted copy. Markers are plain strings. */
  datatype Out =
    | OPrim(text: string)
    | OList(items: seq<Out>)
    | ORecord(fields: seq<(string, Out)>)

  const Circular: string := "[CIRCULAR]"
  const MongooseModel: string := "[MONGOOSE MODEL]"

  /** The sensitive key list and the text that replaces their values. */
  datatype Config = Config(sensitiveKeys: set<string>, redacted: string)

  predicate StartsWith(s: string, prefix: string) {
    |prefix| <= |s| && s[..|prefix|] == prefix
  }

  /** `data.constructor && data.constructor.name.startsWith('model')`. */
  predicate IsModel(ctor: Option<string>) {
    ctor.Some? && StartsWith(ctor.value, "model")
  }

  function Width(v: LogValue): nat {
    match v
    case Prim(_) => 0
    case Arr(_, items) => |items|
    case Obj(_, _, fields) => |fields|
  }

  /** The result and the seen-set after redacting `v` with `seen` already
      seen. */
  function Redact(cfg: Config, seen: set<nat>, v: LogValue): (r: (Out, set<nat>))
    decreases v, Width(v) + 1
    ensures seen <= r.1
    ensures v.Prim? ==> r == (OPrim(v.text), seen)
    ensures !v.Prim? ==> v.ref in r.1
    ensures !v.Prim? && v.ref in seen ==> r == (OPrim(Circular), seen)
    ensures v.Obj? && v.ref !in seen && IsModel(v.ctor) ==> r.0 == OPrim(MongooseModel)
    ensures v.Arr? && v.ref !in seen ==> r.0.OList? && |r.0.items| == |v.items|
    ensures v.Obj? && v.ref !in seen && !IsModel(v.ctor) ==>
      && r.0.ORecord? && |r.0.fields| == |v.fields|
      && forall k :: 0 <= k < |v.fields| ==> r.0.fields[k].0 == v.fields[k].key
  {
    match v
    case Prim(text) => (OPrim(text), seen)
    case Arr(ref, items) =>
      if ref in seen then (OPrim(Circular), seen)
      else
        var (outs, after) := RedactItems(cfg, seen + {ref}, v, |items|);
        (OList(outs), after)
    case Obj(ref, ctor, fields) =>
      if ref in seen then (OPrim(Circular), seen)
      else if IsModel(ctor) then (OPrim(MongooseModel), seen + {ref})
      else
        var (outs, after) := RedactFields(cfg, seen + {ref}, v, |fields|);
        (ORecord(outs), after)
  }

  /** The first `n` items of an array mapped one by one, the seen-set
      threaded from each item to the next. */
  function RedactItems(cfg: Config, seen: set<nat>, v: LogValue, n: nat): (r: (seq<Out>, set<nat>))
    requires v.Arr? && n <= |v.items|
    decreases v, n
    ensures |r.0| == n && seen <= r.1
  {
    if n == 0 then ([], seen)
    else
      var (outs, mid) := RedactItems(cfg, seen, v, n - 1);
      var (o, after) := Redact(cfg, mid, v.items[n - 1]);
      (outs + [o], after)
  }

  /** The first `n` keys of an object: a sensitive key's value becomes the
      redacted text, any other value is redacted in turn. */
  function RedactFields(cfg: Config, seen: set<nat>, v: LogValue, n: nat): (r: (seq<(string, Out)>, set<nat>))
    requires v.Obj? && n <= |v.fields|
    decreases v, n
    ensures |r.0| == n && seen <= r.1
    ensures forall k :: 0 <= k < n ==> r.0[k].0 == v.fields[k].key
    ensures forall k :: 0 <= k < n && v.fields[k].key in cfg.sensitiveKeys ==> r.0[k].1 == OPrim(cfg.redacted)
  {
    if n == 0 then ([], seen)
    else
      var (outs, mid) := RedactFields(cfg, seen, v, n - 1);
      var f := v.fields[n - 1];
      if f.key in cfg.sensitiveKeys then (outs + [(f.key, OPrim(cfg.redacted))], mid)
      else
        var (o, after) := Redact(cfg, mid, f.value);
        (outs + [(f.key, o)], after)
  }

  /** Arrays are mapped element by element, in order: item `k` of the copy
      is item `k` redacted with the seen-set left by the items before it. */
  lemma {:induction false} RedactItemsAt(cfg: Config, seen: set<nat>, v: LogValue, n: nat, k: nat)
    requires v.Arr? && k < n <= |v.items|
    ensures RedactItems(cfg, seen, v, n).0[k] == Redact(cfg, RedactItems(cfg, seen, v, k).1, v.items[k]).0
  {
    if k < n - 1 {
      RedactItemsAt(cfg, seen, v, n - 1, k);
    }
  }

  /** Each key that is not sensitive holds its value redacted with the
      seen-set left by the keys before it. */
  lemma {:induction false} RedactFieldsAt(cfg: Config, seen: set<nat>, v: LogValue, n: nat, k: nat)
    requires v.Obj? && k < n <= |v.fields|
    requires v.fields[k].key !in cfg.sensitiveKeys
    ensures RedactFields(cfg, seen, v, n).0[k].1 == Redact(cfg, RedactFields(cfg, seen, v, k).1, v.fields[k].value).0
  {
    if k < n - 1 {
      RedactFieldsAt(cfg, seen, v, n - 1, k);
    }
  }

  /** The seen-set is never cleared: redacting the same object (or array)
      a second time, in the same call or a later one, gives "[CIRCULAR]". */
  lemma SecondVisitIsCircular(cfg: Config, seen: set<nat>, v: LogValue, later: set<nat>)
    requires !v.Prim?
    requires Redact(cfg, seen, v).1 <= later
    ensures Redact(cfg, later, v) == (OPrim(Circular), later)
  {
  }

  /** The module state of the logger's redaction: the configuration and the
      set of objects seen so far. */
  class Redactor {
    const cfg: Config
    var seen: set<nat>

    constructor (cfg: Config)
      ensures this.cfg == cfg && seen == {}
    {
      this.cfg := cfg;
      seen := {};
    }

    /** `redactLogData`. */
    method RedactLogData(data: LogValue) returns (out: Out)
      modifies this
      decreases data
      ensures (out, seen) == Redact(cfg, old(seen), data)
    {
      if data.Prim? {
        return OPrim(data.text);
      }
      if data.ref in seen {
        return OPrim(Circular);
      }
      seen := seen + {data.ref};
      ghost var start := seen;
      if data.Obj? && IsModel(data.ctor) {
        return OPrim(MongooseModel);
      }
      if data.Arr? {
        var items: seq<Out> := [];
        var i := 0;
        while i < |data.items|
          invariant 0 <= i <= |data.items|
          invariant (items, seen) == RedactItems(cfg, start, data, i)
        {
          var o := RedactLogData(data.items[i]);
          items := items + [o];
          i := i + 1;
        }
        return OList(items);
      }
      var redactedData: seq<(string, Out)> := [];
      var i := 0;
      while i < |data.fields|
        invariant 0 <= i <= |data.fields|
        invariant (redactedData, seen) == RedactFields(cfg, start, data, i)
      {
        var key := data.fields[i].key;
        if key in cfg.sensitiveKeys {
          redactedData := redactedData + [(key, OPrim(cfg.redacted))];
        } else {
          var o := RedactLogData(data.fields[i].value);
          redactedData := redactedData + [(key, o)];
        }
        i := i + 1;
      }
      out := ORecord(redactedData);
    }
  }
}
