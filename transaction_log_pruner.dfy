/**
 * Pruning of the transaction log before it is sent to the client: the changes that the UI
 * asked to ignore, per state node id, are removed from each node's change list, lists that
 * become empty take their node out of the log, and the ignore table is cleared.
 */
module Pruning {
  import opened Sequences

  /** One entry of the insertion-ordered log: a state node (by id) and its changes. */
  datatype Entry<C> = Entry(nodeId: int, changes: seq<C>)

  /** The log itself: entries in insertion order; a map, so node ids are distinct. */
  class ChangeLog<C(==)> {
    var entries: seq<Entry<C>>

    constructor (entries: seq<Entry<C>>)
      ensures this.entries == entries
    {
      this.entries := entries;
    }
  }

  /** The UI's table of changes to ignore, per state node id. */
  class UI<C(==)> {
    var ignoreChanges: map<int, set<C>>

    constructor (ignoreChanges: map<int, set<C>>)
      ensures this.ignoreChanges == ignoreChanges
    {
      this.ignoreChanges := ignoreChanges;
    }
  }

  /** `List.removeAll(ignored)`: the changes not in `ignored`, in their original order. */
  function RemoveAll<C(==)>(changes: seq<C>, ignored: set<C>): (r: seq<C>)
    ensures forall i :: 0 <= i < |r| ==> r[i] in changes && r[i] !in ignored
    ensures forall i :: 0 <= i < |changes| && changes[i] !in ignored ==> changes[i] in r
    ensures |r| <= |changes|
  {
    if changes == [] then []
    else if changes[0] in ignored then RemoveAll(changes[1..], ignored)
    else [changes[0]] + RemoveAll(changes[1..], ignored)
  }

  /** What pruning makes of one entry: unchanged without an ignore set, else filtered or dropped. */
  function PruneEntry<C(==)>(e: Entry<C>, ignores: map<int, set<C>>): seq<Entry<C>>
  {
    if e.nodeId !in ignores then [e]
    else
      var kept := RemoveAll(e.changes, ignores[e.nodeId]);
      if kept == [] then [] else [Entry(e.nodeId, kept)]
  }

  /** The log after pruning, as a function of the log and the ignore table before it. */
  function Pruned<C(==)>(entries: seq<Entry<C>>, ignores: map<int, set<C>>): seq<Entry<C>>
  {
    if entries == [] then [] else PruneEntry(entries[0], ignores) + Pruned(entries[1..], ignores)
  }

  function Ids<C>(entries: seq<Entry<C>>): (r: seq<int>)
    ensures |r| == |entries|
    ensures forall i :: 0 <= i < |entries| ==> r[i] == entries[i].nodeId
  {
    if entries == [] then [] else [entries[0].nodeId] + Ids(entries[1..])
  }

  predicate DistinctIds<C>(entries: seq<Entry<C>>)
  {
    forall i, j :: 0 <= i < j < |entries| ==> entries[i].nodeId != entries[j].nodeId
  }

  /** Pruning a concatenation prunes each part. */
  lemma {:induction false} PrunedAppend<C>(a: seq<Entry<C>>, b: seq<Entry<C>>, ignores: map<int, set<C>>)
    ensures Pruned(a + b, ignores) == Pruned(a, ignores) + Pruned(b, ignores)
    decreases |a|
  {
    if a == [] {
      assert a + b == b;
    } else {
      assert (a + b)[0] == a[0] && (a + b)[1..] == a[1..] + b;
      PrunedAppend(a[1..], b, ignores);
    }
  }

  /** Pruning one more entry of a prefix appends that entry's fate. */
  lemma {:induction false} PrunedStep<C>(entries: seq<Entry<C>>, k: nat, ignores: map<int, set<C>>)
    requires k < |entries|
    ensures Pruned(entries[..k + 1], ignores) == Pruned(entries[..k], ignores) + PruneEntry(entries[k], ignores)
  {
    assert entries[..k + 1] == entries[..k] + [entries[k]];
    PrunedAppend(entries[..k], [entries[k]], ignores);
    assert Pruned([entries[k]], ignores) == PruneEntry(entries[k], ignores) + Pruned([], ignores);
  }

  /**
   * `prune`: walks the log's keys in order, filters each node's list by its ignore set,
   * removes the node through the key iterator when the list becomes empty, and finally
   * clears the ignore table. It returns the very log it was given.
   */
  method Prune<C(==)>(log: ChangeLog<C>, ui: UI<C>) returns (r: ChangeLog<C>)
    modifies log, ui
    ensures r == log
    ensures log.entries == Pruned(old(log.entries), old(ui.ignoreChanges))
    ensures ui.ignoreChanges == map[]
  {
    ghost var original := log.entries;
    var ignoreChanges := ui.ignoreChanges;
    var i := 0;
    ghost var k := 0;
    while i < |log.entries|
      invariant 0 <= i <= |log.entries| && 0 <= k <= |original|
      invariant log.entries[..i] == Pruned(original[..k], ignoreChanges)
      invariant log.entries[i..] == original[k..]
      decreases |original| - k
    {
      ghost var before := log.entries;
      var node := log.entries[i];
      assert node == original[k] by {
        assert before[i..][0] == original[k..][0];
      }
      assert before[i + 1..] == original[k + 1..] by {
        assert before[i + 1..] == before[i..][1..];
        assert original[k + 1..] == original[k..][1..];
      }
      PrunedStep(original, k, ignoreChanges);
      ghost var survivors := Pruned(original[..k + 1], ignoreChanges);
      if node.nodeId in ignoreChanges {
        var nodeChanges := RemoveAll(node.changes, ignoreChanges[node.nodeId]);
        if nodeChanges == [] {
          log.entries := log.entries[..i] + log.entries[i + 1..];
          assert log.entries[..i] == before[..i] == survivors;
          assert log.entries[i..] == before[i + 1..];
        } else {
          log.entries := log.entries[i := Entry(node.nodeId, nodeChanges)];
          assert log.entries[..i + 1] == before[..i] + [Entry(node.nodeId, nodeChanges)] == survivors;
          assert log.entries[i + 1..] == before[i + 1..];
          i := i + 1;
        }
      } else {
        assert before[..i + 1] == before[..i] + [node] == survivors;
        i := i + 1;
      }
      k := k + 1;
    }
    assert original[..k] == original;
    ui.ignoreChanges := map[];
    r := log;
  }

  /** The pruner keeps the pruned log and the templates it was given. */
  class TransactionLogPruner<C(==), Template(==)> {
    var changes: ChangeLog<C>
    var templates: set<Template>

    function GetChanges(): ChangeLog<C>
      reads this
    {
      changes
    }

    function GetTemplates(): set<Template>
      reads this
    {
      templates
    }

    constructor (ui: UI<C>, log: ChangeLog<C>, templates: set<Template>)
      modifies log, ui
      ensures GetChanges() == log && GetTemplates() == templates
      ensures log.entries == Pruned(old(log.entries), old(ui.ignoreChanges))
      ensures ui.ignoreChanges == map[]
    {
      var pruned := Prune(log, ui);
      this.changes := pruned;
      this.templates := templates;
    }
  }

  // ----- What survives pruning -----

  /** No change left in the pruned log belongs to its node's ignore set. */
  lemma {:induction false} NoIgnoredChangeSurvives<C>(entries: seq<Entry<C>>, ignores: map<int, set<C>>)
    ensures forall e, c :: e in Pruned(entries, ignores) && e.nodeId in ignores && c in e.changes ==>
                             c !in ignores[e.nodeId]
    decreases |entries|
  {
    if entries != [] {
      NoIgnoredChangeSurvives(entries[1..], ignores);
    }
  }

  /** No entry of the pruned log has an empty list unless its node had no ignore set. */
  lemma {:induction false} OnlyUnignoredEntriesMayBeEmpty<C>(entries: seq<Entry<C>>, ignores: map<int, set<C>>)
    ensures forall e :: e in Pruned(entries, ignores) && e.changes == [] ==> e.nodeId !in ignores
    decreases |entries|
  {
    if entries != [] {
      OnlyUnignoredEntriesMayBeEmpty(entries[1..], ignores);
    }
  }

  /** The surviving changes of a list are exactly those outside the ignore set, in their original order. */
  lemma {:induction false} RemoveAllKeepsOrder<C>(changes: seq<C>, ignored: set<C>)
    ensures IsSubsequence(RemoveAll(changes, ignored), changes)
    ensures forall c :: multiset(RemoveAll(changes, ignored))[c] == if c in ignored then 0 else multiset(changes)[c]
    decreases |changes|
  {
    if changes == [] {
    } else {
      var rest := RemoveAll(changes[1..], ignored);
      RemoveAllKeepsOrder(changes[1..], ignored);
      assert changes == [changes[0]] + changes[1..];
      if changes[0] in ignored {
        SubsequenceSkip(changes[0], rest, changes[1..]);
      } else {
        SubsequenceCons(changes[0], rest, changes[1..]);
      }
    }
  }

  /** Surviving nodes keep their insertion order. */
  lemma {:induction false} PrunedKeepsNodeOrder<C>(entries: seq<Entry<C>>, ignores: map<int, set<C>>)
    ensures IsSubsequence(Ids(Pruned(entries, ignores)), Ids(entries))
    decreases |entries|
  {
    if entries == [] {
    } else {
      var rest := Pruned(entries[1..], ignores);
      PrunedKeepsNodeOrder(entries[1..], ignores);
      assert Ids(entries) == [entries[0].nodeId] + Ids(entries[1..]);
      var p := PruneEntry(entries[0], ignores);
      if p == [] {
        assert Pruned(entries, ignores) == rest;
        SubsequenceSkip(entries[0].nodeId, Ids(rest), Ids(entries[1..]));
      } else {
        assert Pruned(entries, ignores) == [p[0]] + rest;
        assert Ids([p[0]] + rest) == [entries[0].nodeId] + Ids(rest);
        SubsequenceCons(entries[0].nodeId, Ids(rest), Ids(entries[1..]));
      }
    }
  }

  /**
   * The fate of each node: without an ignore set it stays exactly as it was (even with an
   * empty list); with one it stays, filtered, unless filtering empties its list, in which
   * case it is gone.
   */
  lemma {:induction false} PrunedEntryFate<C>(entries: seq<Entry<C>>, ignores: map<int, set<C>>, i: nat)
    requires DistinctIds(entries) && i < |entries|
    ensures var e := entries[i];
            e.nodeId !in ignores ==> e in Pruned(entries, ignores)
    ensures var e := entries[i];
            e.nodeId in ignores ==>
              ((exists f :: f in Pruned(entries, ignores) && f.nodeId == e.nodeId) <==>
               RemoveAll(e.changes, ignores[e.nodeId]) != [])
    ensures var e := entries[i];
            forall f :: f in Pruned(entries, ignores) && f.nodeId == e.nodeId ==>
              f == PruneEntry(e, ignores)[0]
    decreases |entries|
  {
    var e := entries[i];
    PrunedIdsFromInput(entries[1..], ignores);
    if i == 0 {
      assert forall j :: 0 <= j < |entries[1..]| ==> entries[1..][j].nodeId != e.nodeId by {
        forall j | 0 <= j < |entries[1..]| ensures entries[1..][j].nodeId != e.nodeId {
          assert entries[1..][j] == entries[j + 1];
        }
      }
      forall f | f in Pruned(entries[1..], ignores) ensures f.nodeId != e.nodeId {
        var g :| g in entries[1..] && g.nodeId == f.nodeId;
        var j :| 0 <= j < |entries[1..]| && entries[1..][j] == g;
      }
    } else {
      assert entries[1..][i - 1] == e;
      assert DistinctIds(entries[1..]) by {
        forall a, b | 0 <= a < b < |entries[1..]|
          ensures entries[1..][a].nodeId != entries[1..][b].nodeId
        {
          assert entries[1..][a] == entries[a + 1] && entries[1..][b] == entries[b + 1];
        }
      }
      PrunedEntryFate(entries[1..], ignores, i - 1);
      assert entries[0].nodeId != e.nodeId;
    }
  }

  /** Every entry of the pruned log carries the id of an entry of the original log. */
  lemma {:induction false} PrunedIdsFromInput<C>(entries: seq<Entry<C>>, ignores: map<int, set<C>>)
    ensures forall f :: f in Pruned(entries, ignores) ==> exists e :: e in entries && e.nodeId == f.nodeId
    decreases |entries|
  {
    if entries != [] {
      PrunedIdsFromInput(entries[1..], ignores);
      forall f | f in Pruned(entries, ignores)
        ensures exists e :: e in entries && e.nodeId == f.nodeId
      {
        if f in PruneEntry(entries[0], ignores) {
          assert entries[0] in entries;
        } else {
          var e :| e in entries[1..] && e.nodeId == f.nodeId;
          assert e in entries;
        }
      }
    }
  }

  /** Pruning twice with the same ignore table changes nothing the second time. */
  lemma {:induction false} PruneIdempotent<C>(entries: seq<Entry<C>>, ignores: map<int, set<C>>)
    ensures Pruned(Pruned(entries, ignores), ignores) == Pruned(entries, ignores)
    decreases |entries|
  {
    if entries != [] {
      var p := PruneEntry(entries[0], ignores);
      var rest := Pruned(entries[1..], ignores);
      PruneIdempotent(entries[1..], ignores);
      PrunedAppend(p, rest, ignores);
      if p != [] {
        var e := entries[0];
        if e.nodeId in ignores {
          RemoveAllIdempotent(e.changes, ignores[e.nodeId]);
        }
        assert Pruned(p, ignores) == PruneEntry(p[0], ignores) + Pruned([], ignores) by {
          assert p[1..] == [];
        }
      }
    }
  }

  lemma {:induction false} RemoveAllIdempotent<C>(changes: seq<C>, ignored: set<C>)
    ensures RemoveAll(RemoveAll(changes, ignored), ignored) == RemoveAll(changes, ignored)
    decreases |changes|
  {
    if changes != [] {
      RemoveAllIdempotent(changes[1..], ignored);
      var rest := RemoveAll(changes[1..], ignored);
      if changes[0] !in ignored {
        assert ([changes[0]] + rest)[1..] == rest;
      }
    }
  }
}

/** Pruning applied to list replace changes, whose equality includes the old value. */
module ReplacePruning {
  import opened Pruning
  import opened ListReplace

  /**
   * Ignoring replace changes does not remove a logged change that differs from each of
   * them only in the old value: that change stays in its node's pruned list. `removeAll`
   * compares with `equals`, which `EqualsIsEquality` shows to be value equality.
   */
  lemma {:induction false} OtherOldValueSurvives<T>(entries: seq<Entry<ListReplaceChange<T>>>,
                                                    ignores: map<int, set<ListReplaceChange<T>>>,
                                                    i: nat, logged: ListReplaceChange<T>)
    requires DistinctIds(entries) && i < |entries| && logged in entries[i].changes
    requires entries[i].nodeId in ignores ==>
               forall c :: c in ignores[entries[i].nodeId] ==>
                 c.index == logged.index && c.value == logged.value && c.oldValue != logged.oldValue
    ensures exists f :: f in Pruned(entries, ignores) && f.nodeId == entries[i].nodeId && logged in f.changes
  {
    var e := entries[i];
    PrunedEntryFate(entries, ignores, i);
    if e.nodeId in ignores {
      var ignored := ignores[e.nodeId];
      forall c | c in ignored
        ensures !Equals(c, logged)
      {
        OldValueDistinguishes(logged.index, logged.value, c.oldValue, logged.oldValue);
      }
      assert logged !in ignored;
      var k :| 0 <= k < |e.changes| && e.changes[k] == logged;
      var kept := RemoveAll(e.changes, ignored);
      assert logged in kept;
      var f :| f in Pruned(entries, ignores) && f.nodeId == e.nodeId;
      assert f == Entry(e.nodeId, kept);
    }
  }
}
