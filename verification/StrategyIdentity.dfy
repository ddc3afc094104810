/** A strategy has a stable id and a display name; both may appear in stored rows. */
module StrategyIdentity {
  import opened Prelude

  /** The id-to-display table. */
  datatype Resolver = Resolver(display: map<Text, Text>)

  predicate Injective(m: map<Text, Text>) {
    forall a, b :: a in m && b in m && m[a] == m[b] ==> a == b
  }

  /** No two ids share a display name, no name is also an id, and none is empty. */
  predicate WellFormed(r: Resolver) {
    && Injective(r.display)
    && (forall id :: id in r.display ==> r.display[id] !in r.display)
    && EMPTY !in r.display
    && (forall id :: id in r.display ==> r.display[id] != EMPTY)
  }

  /** The reverse table; of ids that share a name, some one. */
  function DisplayToId(r: Resolver): map<Text, Text>
    requires Injective(r.display)
  {
    map id | id in r.display :: r.display[id] := id
  }

  function ToId(r: Resolver, value: Text): Text
    requires Injective(r.display)
  {
    if value == EMPTY then EMPTY
    else if value in r.display then value
    else if value in DisplayToId(r) then DisplayToId(r)[value] else value
  }

  function ToDisplay(r: Resolver, value: Text): Text
    requires Injective(r.display)
  {
    if value == EMPTY then EMPTY
    else if value in DisplayToId(r) then value
    else if value in r.display then r.display[value] else value
  }

  /** The WHERE clause used to find a strategy's rows: its id, or its display name. */
  predicate FilterMatches(r: Resolver, strategy: Text, stored: Text)
    requires Injective(r.display)
  {
    var sid := ToId(r, strategy);
    stored == sid || stored == ToDisplay(r, sid)
  }

  /** The clause finds exactly the rows of the same strategy, under either name. */
  lemma FilterIsIdentity(r: Resolver, strategy: Text, stored: Text)
    requires WellFormed(r)
    ensures FilterMatches(r, strategy, stored) <==> ToId(r, stored) == ToId(r, strategy)
  {
    var sid := ToId(r, strategy);
    var back := DisplayToId(r);
    assert forall id :: id in r.display ==> r.display[id] in back && back[r.display[id]] == id;
    assert forall name :: name in back ==> back[name] in r.display && r.display[back[name]] == name;
    if ToId(r, stored) == sid && stored != sid {
      assert stored in back && back[stored] == sid;
      assert sid in r.display && r.display[sid] == stored;
    }
  }

  /** Both conversions keep the strategy, and applying either twice changes nothing more. */
  lemma ConversionsKeepIdentity(r: Resolver, value: Text)
    requires WellFormed(r)
    ensures ToId(r, ToId(r, value)) == ToId(r, value)
    ensures ToId(r, ToDisplay(r, value)) == ToId(r, value)
    ensures ToDisplay(r, ToId(r, value)) == ToDisplay(r, value)
  {
    var back := DisplayToId(r);
    assert forall id :: id in r.display ==> r.display[id] in back && back[r.display[id]] == id;
    assert forall name :: name in back ==> back[name] in r.display && r.display[back[name]] == name;
  }

  /** If a display name is also an id, the clause picks up another strategy's rows. */
  lemma OverlapMixesStrategies()
    ensures var r := Resolver(map[1 := 2, 2 := 3]);
            Injective(r.display) && !WellFormed(r) && FilterMatches(r, 1, 2) && ToId(r, 2) != ToId(r, 1)
  {
    var r := Resolver(map[1 := 2, 2 := 3]);
    assert r.display[1] in r.display;
    assert DisplayToId(r) == map[2 := 1, 3 := 2];
  }
}
