/** desktop/src/event_sourcing/mod.rs: ordered insertions and transactions of commands. */
module EventSourcing {
  /** `OrderedInsertion<Parent>`: insert at an index of the parent's children, or append. */
  datatype OrderedInsertion<P> = Insert(parent: P, index: nat) | Append(parent: P)

  /** `parent`: both variants name the parent. */
  function Parent<P>(o: OrderedInsertion<P>): (r: P)
    ensures o.Insert? ==> r == o.parent
    ensures o.Append? ==> r == o.parent
  {
    match o
    case Insert(p, _) => p
    case Append(p) => p
  }

  /** `map`: transforms the parent and keeps the variant and the index. */
  function MapInsertion<P, Q>(o: OrderedInsertion<P>, f: P -> Q): (r: OrderedInsertion<Q>)
    ensures r.Insert? <==> o.Insert?
    ensures r.Insert? ==> r.index == o.index
    ensures Parent(r) == f(Parent(o))
  {
    match o
    case Insert(p, i) => Insert(f(p), i)
    case Append(p) => Append(f(p))
  }

  /** Mapping with the identity changes nothing, and two maps compose. */
  lemma MapInsertionFunctor<P, Q, R>(o: OrderedInsertion<P>, f: P -> Q, g: Q -> R)
    ensures MapInsertion(o, x => x) == o
    ensures MapInsertion(MapInsertion(o, f), g) == MapInsertion(o, x => g(f(x)))
  {
  }

  /** `Transaction<Command>`: iterating yields `commands` in stored order. */
  datatype Transaction<C> = Transaction(commands: seq<C>)

  /** The commands mapped one by one, as `into_iter().map(f).collect()` does. */
  function MapCommands<C, D>(cs: seq<C>, f: C -> D): (r: seq<D>)
    ensures |r| == |cs|
    ensures forall i :: 0 <= i < |cs| ==> r[i] == f(cs[i])
  {
    if |cs| == 0 then [] else [f(cs[0])] + MapCommands(cs[1..], f)
  }

  /** `Transaction::map`: keeps the number and the order of the commands. */
  function MapTransaction<C, D>(t: Transaction<C>, f: C -> D): (r: Transaction<D>)
    ensures |r.commands| == |t.commands|
    ensures forall i :: 0 <= i < |t.commands| ==> r.commands[i] == f(t.commands[i])
  {
    Transaction(MapCommands(t.commands, f))
  }

  /** Mapping a transaction built from two command lists maps each list. */
  lemma MapTransactionAppend<C, D>(a: seq<C>, b: seq<C>, f: C -> D)
    ensures MapTransaction(Transaction(a + b), f).commands ==
      MapTransaction(Transaction(a), f).commands + MapTransaction(Transaction(b), f).commands
  {
  }
}
