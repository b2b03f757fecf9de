/**
 The active-content walk over a PDF object graph.

 A document is a table of indirect objects (section 7.3.10 of ISO 32000-1) and a trailer.
 Direct values nest as a tree; only references through the table can close a cycle.
 */
module PdfWalk {
  import opened Options

  type ObjectId = (nat, nat)

  datatype Entry = Entry(key: string, child: Value)

  datatype Value =
    | Indirect(id: ObjectId)
    | Dictionary(entries: seq<Entry>)
    | Array(items: seq<Value>)
    | Scalar

  /** The objects a reference can be resolved to; resolving any other reference raises. */
  type ObjectTable = map<ObjectId, Value>

  datatype Verdict = Accepted | ActiveContent | InvalidObject | TooComplex

  const ACTIVE_KEYS: set<string> := {
    "/AA", "/EmbeddedFile", "/EmbeddedFiles", "/ImportData", "/JavaScript", "/JS",
    "/Launch", "/OpenAction", "/RichMedia", "/SubmitForm", "/XFA"
  }

  const MAX_INSPECTED: nat := 100_000

  // ----- The graph -----

  ghost function ChildrenOf(entries: seq<Entry>): (children: seq<Value>)
    ensures |children| == |entries|
    ensures forall i | 0 <= i < |entries| :: children[i] == entries[i].child
  {
    seq(|entries|, i requires 0 <= i < |entries| => entries[i].child)
  }

  ghost function Children(v: Value): seq<Value> {
    match v
    case Dictionary(entries) => ChildrenOf(entries)
    case Array(items) => items
    case _ => []
  }

  ghost predicate Edge(table: ObjectTable, v: Value, w: Value) {
    || w in Children(v)
    || (v.Indirect? && v.id in table && w == table[v.id])
  }

  ghost predicate Path(table: ObjectTable, path: seq<Value>) {
    |path| > 0 && forall i | 0 <= i < |path| - 1 :: Edge(table, path[i], path[i + 1])
  }

  ghost predicate PathBetween(table: ObjectTable, path: seq<Value>, v: Value, w: Value) {
    Path(table, path) && path[0] == v && path[|path| - 1] == w
  }

  ghost predicate Reachable(table: ObjectTable, root: Value, v: Value) {
    exists path :: PathBetween(table, path, root, v)
  }

  ghost predicate HasActiveKey(v: Value) {
    v.Dictionary? && exists e :: e in v.entries && e.key in ACTIVE_KEYS
  }

  ghost predicate Unresolvable(table: ObjectTable, v: Value) {
    v.Indirect? && v.id !in table
  }

  /** What an accepted document promises about everything a reader can get to. */
  ghost predicate Harmless(table: ObjectTable, root: Value) {
    forall v | Reachable(table, root, v) :: !HasActiveKey(v) && !Unresolvable(table, v)
  }

  lemma RootReachable(table: ObjectTable, root: Value)
    ensures Reachable(table, root, root)
  {
    assert PathBetween(table, [root], root, root);
  }

  lemma ReachFurther(table: ObjectTable, root: Value, v: Value, w: Value)
    requires Reachable(table, root, v) && Edge(table, v, w)
    ensures Reachable(table, root, w)
  {
    var path :| PathBetween(table, path, root, v);
    assert PathBetween(table, path + [w], root, w);
  }

  /** A set that holds the root and is closed under edges holds every reachable value. */
  lemma {:induction false} ClosedHoldsPath(table: ObjectTable, closed: set<Value>, path: seq<Value>)
    requires Path(table, path) && path[0] in closed
    requires forall v, w | v in closed && Edge(table, v, w) :: w in closed
    ensures path[|path| - 1] in closed
    decreases |path|
  {
    if |path| > 1 {
      var shorter := path[..|path| - 1];
      ClosedHoldsPath(table, closed, shorter);
      assert Edge(table, path[|path| - 2], path[|path| - 1]);
    }
  }

  // ----- The size of the work -----

  /** Number of nodes of the direct structure of a value; a reference counts as one node. */
  ghost function Weight(v: Value): (w: nat)
    ensures w >= 1
    decreases v, 1
  {
    match v
    case Dictionary(entries) => 1 + EntriesWeight(entries)
    case Array(items) => 1 + PendingWeight(items)
    case _ => 1
  }

  ghost function PendingWeight(values: seq<Value>): nat
    decreases values, 0
  {
    if values == [] then 0
    else PendingWeight(values[..|values| - 1]) + Weight(values[|values| - 1])
  }

  ghost function EntriesWeight(entries: seq<Entry>): nat
    decreases entries, 0
  {
    if entries == [] then 0
    else EntriesWeight(entries[..|entries| - 1]) + Weight(entries[|entries| - 1].child)
  }

  /** Weight of the objects named by `ids`. */
  ghost function TableWeight(table: ObjectTable, ids: set<ObjectId>): nat
    requires ids <= table.Keys
  {
    if ids == {} then 0
    else
      var id :| id in ids;
      Weight(table[id]) + TableWeight(table, ids - {id})
  }

  ghost function ReachableIds(table: ObjectTable, root: Value): set<ObjectId> {
    set id | id in table && Reachable(table, root, Indirect(id))
  }

  /** What a complete walk looks at: the root, and each object that is reachable, once. */
  ghost function WalkWeight(table: ObjectTable, root: Value): nat {
    Weight(root) + TableWeight(table, ReachableIds(table, root))
  }

  lemma {:induction false} PendingWeightAppend(a: seq<Value>, b: seq<Value>)
    ensures PendingWeight(a + b) == PendingWeight(a) + PendingWeight(b)
  {
    if b == [] {
      assert a + b == a;
    } else {
      var m := |b| - 1;
      assert (a + b)[..|a + b| - 1] == a + b[..m];
      PendingWeightAppend(a, b[..m]);
    }
  }

  lemma {:induction false} ChildrenWeight(entries: seq<Entry>)
    ensures PendingWeight(ChildrenOf(entries)) == EntriesWeight(entries)
  {
    if entries != [] {
      var init := entries[..|entries| - 1];
      ChildrenWeight(init);
      assert ChildrenOf(entries)[..|entries| - 1] == ChildrenOf(init);
    }
  }

  lemma {:induction false} TableWeightWithout(table: ObjectTable, ids: set<ObjectId>, id: ObjectId)
    requires ids <= table.Keys && id in ids
    ensures TableWeight(table, ids) == Weight(table[id]) + TableWeight(table, ids - {id})
    decreases ids
  {
    var first :| first in ids && TableWeight(table, ids) == Weight(table[first]) + TableWeight(table, ids - {first});
    if first != id {
      TableWeightWithout(table, ids - {first}, id);
      TableWeightWithout(table, ids - {id}, first);
      assert ids - {first} - {id} == ids - {id} - {first};
    }
  }

  lemma {:induction false} TableWeightGrows(table: ObjectTable, fewer: set<ObjectId>, more: set<ObjectId>)
    requires fewer <= more <= table.Keys
    ensures TableWeight(table, fewer) <= TableWeight(table, more)
    decreases more - fewer
  {
    if fewer != more {
      assert more - fewer != {} by { assert fewer + (more - fewer) == more; }
      var id :| id in more - fewer;
      TableWeightWithout(table, fewer + {id}, id);
      assert fewer + {id} - {id} == fewer;
      TableWeightGrows(table, fewer + {id}, more);
    }
  }

  // ----- The walk -----

  /**
   What the loop keeps: only reachable values are ever pending, the values already inspected
   (`seen`) are harmless, and whatever they lead to has been inspected or is still pending.
   */
  ghost predicate WalkInvariant(table: ObjectTable, root: Value, seen: set<Value>, visited: set<ObjectId>,
                                pending: seq<Value>) {
    && (root in seen || root in pending)
    && (forall v | v in pending || v in seen :: Reachable(table, root, v))
    && (forall v | v in seen :: !HasActiveKey(v) && !Unresolvable(table, v))
    && (forall v, w | v in seen && Edge(table, v, w) :: w in seen || w in pending)
    && (forall id | id in visited :: id in table && Indirect(id) in seen)
    && (forall v | v in seen && v.Indirect? :: v.id in visited)
  }

  lemma WalkStarts(table: ObjectTable, root: Value)
    ensures WalkInvariant(table, root, {}, {}, [root])
  {
    RootReachable(table, root);
  }

  lemma WalkReaches(table: ObjectTable, root: Value, seen: set<Value>, visited: set<ObjectId>, pending: seq<Value>)
    requires WalkInvariant(table, root, seen, visited, pending)
    ensures forall v | v in pending :: Reachable(table, root, v)
    ensures visited <= ReachableIds(table, root)
    ensures forall id | id in visited :: id in table && Indirect(id) in seen
  {
  }

  /** One round: `value` is taken from the end of the worklist and `more` is pushed. */
  lemma WalkRound(table: ObjectTable, root: Value, seen: set<Value>, visited: set<ObjectId>, rest: seq<Value>,
                  value: Value, more: seq<Value>)
    requires WalkInvariant(table, root, seen, visited, rest + [value])
    requires !HasActiveKey(value) && !Unresolvable(table, value)
    requires forall w | w in more :: Edge(table, value, w)
    requires forall w | Edge(table, value, w) :: w in more || value in seen
    ensures WalkInvariant(table, root, seen + {value}, if value.Indirect? then visited + {value.id}
        else visited, rest + more)
  {
    var before := rest + [value];
    assert before[|rest|] == value;
    forall v | v in rest + more ensures Reachable(table, root, v) {
      if v in rest {
        assert v in before;
      } else {
        ReachFurther(table, root, value, v);
      }
    }
    assert forall v | v in before :: v in rest || v == value;
    assert forall v | v in rest || v in more :: v in rest + more;
  }

  lemma IndirectRound(table: ObjectTable, root: Value, seen: set<Value>, visited: set<ObjectId>, rest: seq<Value>,
                      id: ObjectId)
    requires WalkInvariant(table, root, seen, visited, rest + [Indirect(id)]) && id in table && visited <= table.Keys
    ensures id in visited ==> WalkInvariant(table, root, seen + {Indirect(id)}, visited, rest)
    ensures id !in visited ==>
              && WalkInvariant(table, root, seen + {Indirect(id)}, visited + {id}, rest + [table[id]])
              && PendingWeight(rest + [table[id]]) == PendingWeight(rest) + Weight(table[id])
              && TableWeight(table, visited + {id}) == TableWeight(table, visited) + Weight(table[id])
  {
    if id in visited {
      WalkRound(table, root, seen, visited, rest, Indirect(id), []);
      assert rest + [] == rest && visited + {id} == visited;
    } else {
      WalkRound(table, root, seen, visited, rest, Indirect(id), [table[id]]);
      TableWeightWithout(table, visited + {id}, id);
      assert visited + {id} - {id} == visited;
    }
  }

  lemma DirectRound(table: ObjectTable, root: Value, seen: set<Value>, visited: set<ObjectId>, rest: seq<Value>,
                    value: Value)
    requires WalkInvariant(table, root, seen, visited, rest + [value]) && !value.Indirect? && !HasActiveKey(value)
    ensures WalkInvariant(table, root, seen + {value}, visited, rest + Children(value))
    ensures PendingWeight(rest + Children(value)) + 1 == PendingWeight(rest) + Weight(value)
  {
    WalkRound(table, root, seen, visited, rest, value, Children(value));
    PendingWeightAppend(rest, Children(value));
    if value.Dictionary? {
      ChildrenWeight(value.entries);
    }
  }

  lemma WalkFinished(table: ObjectTable, root: Value, seen: set<Value>, visited: set<ObjectId>)
    requires WalkInvariant(table, root, seen, visited, [])
    ensures Harmless(table, root) && visited == ReachableIds(table, root)
  {
    forall v | Reachable(table, root, v) ensures v in seen {
      var path :| PathBetween(table, path, root, v);
      ClosedHoldsPath(table, seen, path);
    }
  }

  /** The loop over the entries of a dictionary: stop at an active key, or push every child. */
  method PushEntries(entries: seq<Entry>, rest: seq<Value>) returns (active: bool, pending: seq<Value>)
    ensures active <==> exists e :: e in entries && e.key in ACTIVE_KEYS
    ensures !active ==> pending == rest + ChildrenOf(entries)
  {
    pending := rest;
    for i := 0 to |entries|
      invariant pending == rest + ChildrenOf(entries[..i])
      invariant forall e | e in entries[..i] :: e.key !in ACTIVE_KEYS
    {
      if entries[i].key in ACTIVE_KEYS {
        return true, pending;
      }
      pending := pending + [entries[i].child];
      assert entries[..i + 1] == entries[..i] + [entries[i]];
      assert ChildrenOf(entries[..i + 1]) == ChildrenOf(entries[..i]) + [entries[i].child];
    }
    assert entries[..|entries|] == entries;
    active := false;
  }

  /**
   The worklist traversal. `cap` is the inspection limit (`Some(MAX_INSPECTED)` in the service);
   with `None` the loop still ends, because each round either resolves a new object or consumes
   pending direct structure. On a harmless document the verdict is decided exactly by the
   number of values a complete walk inspects.
   */
  method RejectActiveContent(table: ObjectTable, root: Value, cap: Option<nat>) returns (verdict: Verdict)
    ensures verdict == Accepted ==> Harmless(table, root)
    ensures verdict == ActiveContent ==> exists v :: Reachable(table, root, v) && HasActiveKey(v)
    ensures verdict == InvalidObject ==> exists v :: Reachable(table, root, v) && Unresolvable(table, v)
    ensures verdict == TooComplex ==> cap.Some? && cap.value < WalkWeight(table, root)
    ensures Harmless(table, root) ==>
              verdict == if cap.Some? && cap.value < WalkWeight(table, root) then TooComplex else Accepted
  {
    hide WalkInvariant, Reachable, Edge;
    var pending := [root];
    var visited: set<ObjectId> := {};
    var inspected: nat := 0;
    ghost var seen: set<Value> := {};
    WalkStarts(table, root);
    while pending != []
      invariant WalkInvariant(table, root, seen, visited, pending)
      invariant visited <= table.Keys
      invariant inspected + PendingWeight(pending) == Weight(root) + TableWeight(table, visited)
      invariant cap.Some? ==> inspected <= cap.value
      decreases table.Keys - visited, PendingWeight(pending)
    {
      var last := |pending| - 1;
      var value := pending[last];
      var rest := pending[..last];
      assert pending == rest + [value];
      WalkReaches(table, root, seen, visited, pending);
      pending := rest;
      inspected := inspected + 1;
      if cap.Some? && inspected > cap.value {
        TableWeightGrows(table, visited, ReachableIds(table, root));
        return TooComplex;
      }
      match value {
        case Indirect(id) =>
          if id in visited {
            IndirectRound(table, root, seen, visited, rest, id);
          } else {
            visited := visited + {id};
            if id !in table {
              assert Unresolvable(table, value);
              return InvalidObject;
            }
            IndirectRound(table, root, seen, visited - {id}, rest, id);
            assert visited - {id} + {id} == visited;
            pending := pending + [table[id]];
          }
        case Dictionary(entries) =>
          var active;
          active, pending := PushEntries(entries, pending);
          if active {
            assert HasActiveKey(value);
            return ActiveContent;
          }
          DirectRound(table, root, seen, visited, rest, value);
        case Array(items) =>
          pending := pending + items;
          DirectRound(table, root, seen, visited, rest, value);
        case Scalar =>
          DirectRound(table, root, seen, visited, rest, value);
          assert rest + [] == rest;
      }
      seen := seen + {value};
    }
    WalkFinished(table, root, seen, visited);
    verdict := Accepted;
  }

  /** The check of an uploaded document from its trailer: what is accepted is exactly small and harmless. */
  method ValidateStructure(table: ObjectTable, trailer: Value) returns (verdict: Verdict)
    ensures verdict == Accepted <==> Harmless(table, trailer) && WalkWeight(table, trailer) <= 100_000
    ensures verdict == TooComplex ==> 100_000 < WalkWeight(table, trailer)
    ensures verdict == ActiveContent ==> exists v :: Reachable(table, trailer, v) && HasActiveKey(v)
    ensures verdict == InvalidObject ==> exists v :: Reachable(table, trailer, v) && Unresolvable(table, v)
  {
    verdict := RejectActiveContent(table, trailer, Some(MAX_INSPECTED));
  }
}
