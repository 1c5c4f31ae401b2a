/** The double-entry journal of one termination, as the market wallet writes it:
    an entry is keyed by (source, action), its postings sum to zero, and a
    liability is a negative balance. */
module Journal {

  datatype Account =
    | WalletAvailable(user: string)
    | ProviderPending(user: string)
    | Unfulfilled(period: string)

  datatype Posting = Posting(account: Account, units: int)

  datatype Source = ClientTermination | ClientCompensation

  datatype Action =
    | ReturnUnused(version: int)
    | ReturnDisputed(version: int)
    | ReturnCompensation(version: int)
    | Award
    | AutomaticCredit

  datatype Entry = Entry(source: Source, action: Action, postings: seq<Posting>)

  /** Which entries a sum ranges over. */
  datatype Filter = Every | BySource(source: Source) | Reversals

  predicate Picks(f: Filter, e: Entry) {
    match f
    case Every => true
    case BySource(s) => e.source == s
    case Reversals => e.source == ClientTermination && e.action.ReturnCompensation?
  }

  /** Moves `units` out of liability `from` into `to`. */
  function Transfer(source: Source, action: Action, from: Account, to: Account, units: int): Entry {
    Entry(source, action, [Posting(from, units), Posting(to, -units)])
  }

  function SumUnits(ps: seq<Posting>): int {
    if |ps| == 0 then 0 else ps[0].units + SumUnits(ps[1..])
  }

  function SumOn(ps: seq<Posting>, a: Account): int {
    if |ps| == 0 then 0 else (if ps[0].account == a then ps[0].units else 0) + SumOn(ps[1..], a)
  }

  /** The well-formedness that `post_journal_tx` enforces before inserting. */
  predicate Balanced(e: Entry) {
    && |e.postings| >= 2
    && (forall p :: p in e.postings ==> p.units != 0)
    && SumUnits(e.postings) == 0
  }

  function Total(j: seq<Entry>, f: Filter, a: Account): int {
    if |j| == 0 then 0
    else
      var e := j[|j| - 1];
      Total(j[..|j| - 1], f, a) + if Picks(f, e) then SumOn(e.postings, a) else 0
  }

  predicate KeyUsed(j: seq<Entry>, source: Source, action: Action) {
    exists i :: 0 <= i < |j| && j[i].source == source && j[i].action == action
  }

  /** No (source, action) key occurs twice: the unique index of the journal table. */
  predicate UniqueKeys(j: seq<Entry>) {
    forall i, k :: 0 <= i < k < |j| ==> j[i].source != j[k].source || j[i].action != j[k].action
  }

  lemma TransferSums(source: Source, action: Action, from: Account, to: Account, units: int)
    requires from != to
    ensures var ps := Transfer(source, action, from, to, units).postings;
            && SumUnits(ps) == 0
            && forall a :: SumOn(ps, a) == if a == from then units else if a == to then -units else 0
  {
    var ps := Transfer(source, action, from, to, units).postings;
    var tail := ps[1..];
    assert tail == [Posting(to, -units)] && tail[1..] == [];
    assert SumUnits(tail[1..]) == 0 && SumUnits(tail) == -units;
    forall a ensures SumOn(ps, a) == if a == from then units else if a == to then -units else 0 {
      assert SumOn(tail[1..], a) == 0;
      assert SumOn(tail, a) == if a == to then -units else 0;
    }
  }

  lemma TransferBalanced(source: Source, action: Action, from: Account, to: Account, units: int)
    requires from != to && units != 0
    ensures Balanced(Transfer(source, action, from, to, units))
  {
    TransferSums(source, action, from, to, units);
  }

  lemma TotalAppend(j: seq<Entry>, e: Entry, f: Filter, a: Account)
    ensures Total(j + [e], f, a) == Total(j, f, a) + if Picks(f, e) then SumOn(e.postings, a) else 0
  {
    assert (j + [e])[..|j|] == j;
  }

  /** Appending an entry whose key is fresh keeps the keys unique. */
  lemma FreshKeyAppend(j: seq<Entry>, e: Entry)
    requires UniqueKeys(j) && !KeyUsed(j, e.source, e.action)
    ensures UniqueKeys(j + [e])
    ensures forall s, a :: KeyUsed(j + [e], s, a) <==> KeyUsed(j, s, a) || (s == e.source && a == e.action)
  {
    var j' := j + [e];
    forall s, a
      ensures KeyUsed(j', s, a) <==> KeyUsed(j, s, a) || (s == e.source && a == e.action)
    {
      if KeyUsed(j, s, a) {
        var i :| 0 <= i < |j| && j[i].source == s && j[i].action == a;
        assert j'[i] == j[i];
      }
      if s == e.source && a == e.action { assert j'[|j|] == e; }
      if KeyUsed(j', s, a) {
        var i :| 0 <= i < |j'| && j'[i].source == s && j'[i].action == a;
        if i < |j| { assert j[i] == j'[i]; }
      }
    }
  }
}
