/** The audit trail of an entity: field-level diffs and what replaying them yields. */
module Audit {
  import opened Prelude
  import opened Schema

  datatype Change = Change(before: Value, after: Value)

  type Changes = map<string, Change>

  datatype Action = Create | Update | Delete

  /** One audit record. `revision` is absent for edge records. */
  datatype Entry = Entry(action: Action, revision: Option<nat>, before: Option<Doc>, after: Option<Doc>,
                         changes: Changes)

  /** The changes at some of the fields, an absent field counting as null. */
  function DiffAt(before: Doc, after: Doc, keys: set<string>): Changes {
    map k | k in keys && Read(before, k) != Read(after, k) :: Change(Read(before, k), Read(after, k))
  }

  /** The fields whose value differs. */
  function Diff(before: Doc, after: Doc): Changes {
    DiffAt(before, after, before.Keys + after.Keys)
  }

  /** Computes the diff key by key. */
  method ComputeDiff(before: Doc, after: Doc) returns (changes: Changes)
    ensures changes == Diff(before, after)
  {
    changes := map[];
    var keys := before.Keys + after.Keys;
    var todo := keys;
    while todo != {}
      invariant todo <= keys
      invariant changes == DiffAt(before, after, keys - todo)
      decreases |todo|
    {
      var k :| k in todo;
      var b, a := Read(before, k), Read(after, k);
      OneMoreField(before, after, keys - todo, k);
      if b != a {
        changes := changes[k := Change(b, a)];
      }
      assert keys - (todo - {k}) == (keys - todo) + {k};
      todo := todo - {k};
    }
    assert keys - {} == keys;
  }

  lemma OneMoreField(before: Doc, after: Doc, keys: set<string>, k: string)
    requires k !in keys
    ensures var some, more := DiffAt(before, after, keys), DiffAt(before, after, keys + {k});
      if Read(before, k) == Read(after, k) then more == some
      else more == some[k := Change(Read(before, k), Read(after, k))]
  {
  }

  /** The two documents read the same at every field. */
  ghost predicate SameReading(d: Doc, e: Doc) {
    forall k :: Read(d, k) == Read(e, k)
  }

  function Redo(d: Doc, changes: Changes): Doc {
    d + map k | k in changes :: changes[k].after
  }

  function Undo(d: Doc, changes: Changes): Doc {
    d + map k | k in changes :: changes[k].before
  }

  /** A diff is exactly the difference: redone on the old reading it gives the new one, undone it gives the old one. */
  lemma DiffRoundTrip(before: Doc, after: Doc, d: Doc)
    ensures SameReading(d, before) ==> SameReading(Redo(d, Diff(before, after)), after)
    ensures SameReading(d, after) ==> SameReading(Undo(d, Diff(before, after)), before)
    ensures Diff(before, after).Keys == {} <==> SameReading(before, after)
  {
    var changes := Diff(before, after);
    forall k
      ensures SameReading(d, before) ==> Read(Redo(d, changes), k) == Read(after, k)
      ensures SameReading(d, after) ==> Read(Undo(d, changes), k) == Read(before, k)
    {
      assert SameReading(d, before) ==> Read(d, k) == Read(before, k);
      assert SameReading(d, after) ==> Read(d, k) == Read(after, k);
    }
    if changes.Keys == {} {
      forall k
        ensures Read(before, k) == Read(after, k)
      {
        assert k !in changes;
      }
    }
    if SameReading(before, after) {
      assert forall k :: Read(before, k) == Read(after, k);
    }
  }

  /** What the trail says the fields are: the create snapshot with every recorded diff applied in order. */
  function Replay(trail: seq<Entry>): Doc {
    if trail == [] then map[]
    else
      var last := trail[|trail| - 1];
      match last.action
      case Create => if last.after.Some? then last.after.value else map[]
      case Update => Redo(Replay(trail[..|trail| - 1]), last.changes)
      case Delete => map[]
  }
}
