/**
 The telegraf runner's configuration store: operations applied to a map, and the single document
 served to telegraf from it (agents/telegraf.go).
 */
module TelegrafConfigs {
  import opened Prelude

  datatype OpType = Create | Modify | Remove | Unrecognized

  datatype Op = Op(kind: OpType, id: string, content: string)

  const HEADER := "[inputs]"

  predicate HasHeader(v: string) {
    |v| >= 8 && v[..8] == "[inputs]"
  }

  /** The conversion to TOML, from a library outside the repository, may fail but starts with the header. */
  ghost predicate Converter(convert: Op -> Option<string>) {
    forall op :: convert(op).Some? ==> HasHeader(convert(op).value)
  }

  /** An operation that changes nothing and is not counted: a failed conversion, or nothing to remove. */
  predicate Inert(convert: Op -> Option<string>, configs: map<string, string>, op: Op) {
    match op.kind
    case Create => convert(op).None?
    case Modify => convert(op).None?
    case Remove => op.id !in configs
    case Unrecognized => true
  }

  // ---------------------------------------------------------------- what the store should hold

  datatype Entry = Operation(op: Op) | Purge

  function Entries(ops: seq<Op>): (es: seq<Entry>)
    ensures |es| == |ops|
  {
    seq(|ops|, i requires 0 <= i < |ops| => Operation(ops[i]))
  }

  /**
   The config an id should have after a log: the conversion of the latest CREATE or MODIFY of it that
   converted, unless the id was removed or everything was purged since.
   */
  function Latest(convert: Op -> Option<string>, log: seq<Entry>, id: string): Option<string> {
    if log == [] then None
    else
      var earlier := Latest(convert, log[..|log| - 1], id);
      match log[|log| - 1]
      case Purge => None
      case Operation(op) =>
        if op.id != id then earlier
        else match op.kind
          case Create => if convert(op).Some? then convert(op) else earlier
          case Modify => if convert(op).Some? then convert(op) else earlier
          case Remove => None
          case Unrecognized => earlier
  }

  ghost predicate Holds(convert: Op -> Option<string>, configs: map<string, string>, log: seq<Entry>) {
    forall id :: Latest(convert, log, id) == if id in configs then Some(configs[id]) else None
  }

  lemma LatestSnoc(convert: Op -> Option<string>, log: seq<Entry>, e: Entry)
    ensures (log + [e])[..|log|] == log && (log + [e])[|log|] == e
  {
  }

  // ---------------------------------------------------------------- the served document

  function Body(v: string): string {
    if |v| >= 8 && v[..8] == "[inputs]" then v[8..] else v
  }

  /** One leading header is taken off a stored config, and nothing else. */
  lemma BodyExact(v: string)
    ensures forall b | v == "[inputs]" + b :: Body(v) == b
    ensures (forall b :: v != "[inputs]" + b) ==> Body(v) == v
  {
    if |v| >= 8 && v[..8] == "[inputs]" {
      assert v == "[inputs]" + v[8..];
    }
  }

  function Bodies(configs: map<string, string>, order: seq<string>): string
    requires forall id | id in order :: id in configs
  {
    if order == [] then ""
    else Bodies(configs, order[..|order| - 1]) + Body(configs[order[|order| - 1]])
  }

  /** order lists every element of s exactly once. */
  ghost predicate Enumerates(order: seq<string>, s: set<string>) {
    && (forall id :: id in order <==> id in s)
    && (forall i, j | 0 <= i < j < |order| :: order[i] != order[j])
  }

  /** served is what telegraf gets when the map is iterated in the given order. */
  ghost predicate Serves(mainConfig: string, configs: map<string, string>, order: seq<string>, served: string) {
    && Enumerates(order, configs.Keys) && (forall id | id in order :: id in configs)
    && served == mainConfig + "[inputs]" + Bodies(configs, order)
  }

  lemma EnumeratesSnoc(order: seq<string>, s: set<string>, id: string)
    requires Enumerates(order, s) && id !in s
    ensures Enumerates(order + [id], s + {id})
  {
  }

  lemma BodiesSnoc(configs: map<string, string>, order: seq<string>, id: string)
    requires (forall k | k in order :: k in configs) && id in configs
    ensures forall k | k in order + [id] :: k in configs
    ensures Bodies(configs, order + [id]) == Bodies(configs, order) + Body(configs[id])
  {
    assert (order + [id])[..|order|] == order;
  }

  class Store {
    const convert: Op -> Option<string>
    const mainConfig: string
    var configs: map<string, string>
    ghost var log: seq<Entry>   // every operation and purge so far, whatever instruction it came in

    ghost predicate Valid()
      reads this
    {
      && Converter(convert)
      && Holds(convert, configs, log)
      && forall id | id in configs :: HasHeader(configs[id])
    }

    constructor (convert: Op -> Option<string>, mainConfig: string)
      requires Converter(convert)
      ensures Valid() && log == [] && this.convert == convert && this.mainConfig == mainConfig
    {
      this.convert, this.mainConfig, configs, log := convert, mainConfig, map[], [];
    }

    method PurgeConfig()
      requires Valid()
      modifies this
      ensures Valid() && log == old(log) + [Purge]
    {
      LatestSnoc(convert, log, Purge);
      configs, log := map[], log + [Purge];
    }

    method HandleOp(op: Op) returns (applied: bool)
      requires Valid()
      modifies this
      ensures Valid() && log == old(log) + [Operation(op)]
      ensures applied == !Inert(convert, old(configs), op)
      ensures !applied ==> configs == old(configs)
    {
      LatestSnoc(convert, log, Operation(op));
      log := log + [Operation(op)];
      match op.kind {
        case Remove =>
          if op.id in configs {
            configs := configs - {op.id};
            return true;
          }
          return false;
        case Unrecognized => return false;
        case _ =>
          var converted := convert(op);
          if converted.None? {
            return false;
          }
          configs := configs[op.id := converted.value];
          return true;
      }
    }

    /**
     ProcessConfig: the store follows the log however the operations are batched, and the error that
     no configuration was applied means exactly that every operation was inert and nothing changed.
     */
    method ProcessConfig(ops: seq<Op>) returns (noneApplied: bool)
      requires Valid()
      modifies this
      ensures Valid() && log == old(log) + Entries(ops)
      ensures noneApplied <==> forall op | op in ops :: Inert(convert, old(configs), op)
      ensures noneApplied ==> configs == old(configs)
    {
      var applied := 0;
      for i := 0 to |ops|
        invariant Valid() && log == old(log) + Entries(ops)[..i]
        invariant applied == 0 ==> configs == old(configs)
        invariant applied == 0 <==> forall j | 0 <= j < i :: Inert(convert, old(configs), ops[j])
      {
        var ok := HandleOp(ops[i]);
        if ok {
          applied := applied + 1;
        }
        assert Entries(ops)[..i + 1] == Entries(ops)[..i] + [Operation(ops[i])];
      }
      assert Entries(ops)[..|ops|] == Entries(ops);
      return applied == 0;
    }

    /** concatConfigs: the main config, one header, and every body once, in whatever order the map yields. */
    method ConcatConfigs() returns (served: string)
      requires Valid()
      ensures exists order :: Serves(mainConfig, configs, order, served)
    {
      served := mainConfig + HEADER;
      var rest := configs.Keys;
      ghost var order: seq<string> := [];
      assert served + "" == served;
      while rest != {}
        invariant rest <= configs.Keys && Enumerates(order, configs.Keys - rest)
        invariant forall id | id in order :: id in configs
        invariant served == mainConfig + HEADER + Bodies(configs, order)
      {
        var id :| id in rest;
        var v := configs[id];
        if v[0..8] == HEADER {
          v := v[8..];
        }
        EnumeratesSnoc(order, configs.Keys - rest, id);
        BodiesSnoc(configs, order, id);
        Assoc(mainConfig + HEADER, Bodies(configs, order), v);
        assert configs.Keys - (rest - {id}) == configs.Keys - rest + {id};
        served, order, rest := served + v, order + [id], rest - {id};
      }
      assert configs.Keys - {} == configs.Keys;
      assert Serves(mainConfig, configs, order, served);
    }
  }

  // ---------------------------------------------------------------- the document, for every order

  ghost function Total(configs: map<string, string>, s: set<string>): nat
    requires s <= configs.Keys && forall id | id in configs :: HasHeader(configs[id])
  {
    if s == {} then 0
    else
      var id :| id in s;
      |configs[id]| - 8 + Total(configs, s - {id})
  }

  lemma {:induction false} TotalWithout(configs: map<string, string>, s: set<string>, id: string)
    requires s <= configs.Keys && id in s && forall k | k in configs :: HasHeader(configs[k])
    ensures Total(configs, s) == |configs[id]| - 8 + Total(configs, s - {id})
    decreases s
  {
    var first :| first in s && Total(configs, s) == |configs[first]| - 8 + Total(configs, s - {first});
    if first != id {
      TotalWithout(configs, s - {first}, id);
      TotalWithout(configs, s - {id}, first);
      assert s - {first} - {id} == s - {id} - {first};
    }
  }

  lemma {:induction false} BodiesLength(configs: map<string, string>, order: seq<string>, s: set<string>)
    requires s <= configs.Keys && Enumerates(order, s) && (forall id | id in configs :: HasHeader(configs[id]))
    requires forall id | id in order :: id in configs
    ensures |Bodies(configs, order)| == Total(configs, s)
  {
    if order == [] {
      assert s == {};
    } else {
      var front, id := order[..|order| - 1], order[|order| - 1];
      assert id in order;
      forall k
        ensures k in front <==> k in s - {id}
      {
        if k in s - {id} {
          var i :| 0 <= i < |order| && order[i] == k;
          assert front[i] == k;
        }
      }
      BodiesLength(configs, front, s - {id});
      TotalWithout(configs, s, id);
    }
  }

  /** However the map is iterated, the document has the main config, one header and each body's length once. */
  lemma ServedLength(mainConfig: string, configs: map<string, string>, order: seq<string>, served: string)
    requires Serves(mainConfig, configs, order, served) && forall id | id in configs :: HasHeader(configs[id])
    ensures |served| == |mainConfig| + 8 + Total(configs, configs.Keys)
  {
    BodiesLength(configs, order, configs.Keys);
  }
}
