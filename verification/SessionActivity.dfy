/** The bounded record of session activity that keeps busy sandboxes from being stopped. */
module SessionActivity {

  datatype Note = Note(session: string, at: int)

  /** An insertion-ordered map is the sequence of its entries, oldest first. */
  ghost predicate IsMap(entries: seq<Note>) {
    forall i, j :: 0 <= i < j < |entries| ==> entries[i].session != entries[j].session
  }

  predicate Has(entries: seq<Note>, session: string) {
    exists i :: 0 <= i < |entries| && entries[i].session == session
  }

  function Without(entries: seq<Note>, session: string): (r: seq<Note>)
    ensures |r| <= |entries|
  {
    if entries == [] then []
    else (if entries[0].session == session then [] else [entries[0]]) + Without(entries[1..], session)
  }

  /** The last note of each session of a history, in the order of those notes. */
  function LastNotes(history: seq<Note>): seq<Note> {
    if history == [] then []
    else (if Has(history[1..], history[0].session) then [] else [history[0]]) + LastNotes(history[1..])
  }

  function Tail(entries: seq<Note>, max: nat): seq<Note> {
    if |entries| <= max then entries else entries[|entries| - max..]
  }

  class Activity {
    const max: nat
    var entries: seq<Note>
    ghost var history: seq<Note>

    /** What is recorded is the last note of each of the sessions noted last, at most `max` of them. */
    ghost predicate Valid()
      reads this
    {
      max >= 1 && entries == Tail(LastNotes(history), max)
    }

    constructor (max: nat)
      requires max >= 1
      ensures Valid() && this.max == max && history == []
    {
      this.max := max;
      entries, history := [], [];
    }

    method Record(session: string, at: int)
      requires Valid()
      modifies this
      ensures Valid() && history == old(history) + [Note(session, at)]
    {
      LastNotesAreMap(history);
      RecordKeepsTail(LastNotes(history), max, Note(session, at));
      if |entries| >= max && !Has(entries, session) {
        entries := Without(entries, entries[0].session);
      }
      entries := Without(entries, session);
      entries := entries + [Note(session, at)];
      LastNotesAppend(history, Note(session, at));
      history := history + [Note(session, at)];
    }

    /** The recorded time of a session, if any. */
    method ActivityOf(session: string) returns (found: bool, at: int)
      ensures found <==> Has(entries, session)
      ensures found ==> Note(session, at) in entries
    {
      var i := 0;
      while i < |entries|
        invariant 0 <= i <= |entries|
        invariant !Has(entries[..i], session)
      {
        if entries[i].session == session {
          return true, entries[i].at;
        }
        i := i + 1;
      }
      assert entries[..i] == entries;
      return false, 0;
    }
  }

  // ---- removing and appending

  lemma {:induction false} WithoutAbsent(entries: seq<Note>, session: string)
    requires !Has(entries, session)
    ensures Without(entries, session) == entries
  {
    if entries != [] {
      assert entries[0].session != session;
      forall i | 0 <= i < |entries[1..]| ensures entries[1..][i].session != session {
        assert entries[1..][i] == entries[i + 1];
      }
      WithoutAbsent(entries[1..], session);
    }
  }

  lemma {:induction false} WithoutConcat(a: seq<Note>, b: seq<Note>, session: string)
    ensures Without(a + b, session) == Without(a, session) + Without(b, session)
  {
    if a == [] {
      assert a + b == b;
    } else {
      assert (a + b)[1..] == a[1..] + b;
      WithoutConcat(a[1..], b, session);
    }
  }

  lemma {:induction false} WithoutPresent(entries: seq<Note>, session: string)
    requires IsMap(entries) && Has(entries, session)
    ensures |Without(entries, session)| == |entries| - 1
  {
    assert forall i :: 0 <= i < |entries[1..]| ==> entries[1..][i] == entries[i + 1];
    if entries[0].session == session {
      assert !Has(entries[1..], session);
      WithoutAbsent(entries[1..], session);
    } else {
      var i :| 0 <= i < |entries| && entries[i].session == session;
      assert entries[1..][i - 1].session == session;
      WithoutPresent(entries[1..], session);
    }
  }

  lemma WithoutFirst(entries: seq<Note>)
    requires IsMap(entries) && entries != []
    ensures Without(entries, entries[0].session) == entries[1..]
  {
    assert !Has(entries[1..], entries[0].session);
    WithoutAbsent(entries[1..], entries[0].session);
  }

  lemma {:induction false} HasConcat(a: seq<Note>, b: seq<Note>, session: string)
    ensures Has(a + b, session) <==> Has(a, session) || Has(b, session)
  {
    if i :| 0 <= i < |a| && a[i].session == session {
      assert (a + b)[i].session == session;
    }
    if i :| 0 <= i < |b| && b[i].session == session {
      assert (a + b)[|a| + i].session == session;
    }
  }

  lemma {:induction false} LastNotesAppend(history: seq<Note>, n: Note)
    ensures LastNotes(history + [n]) == Without(LastNotes(history), n.session) + [n]
  {
    if history == [] {
      assert history + [n] == [n];
    } else {
      assert (history + [n])[1..] == history[1..] + [n];
      LastNotesAppend(history[1..], n);
      HasConcat(history[1..], [n], history[0].session);
      assert [n][0] == n;
      var here := if Has(history[1..], history[0].session) then [] else [history[0]];
      WithoutConcat(here, LastNotes(history[1..]), n.session);
      assert [history[0]][1..] == [];
    }
  }

  lemma {:induction false} LastNotesHave(history: seq<Note>, session: string)
    ensures Has(LastNotes(history), session) <==> Has(history, session)
  {
    if history != [] {
      LastNotesHave(history[1..], session);
      HasConcat([history[0]], history[1..], session);
      assert history == [history[0]] + history[1..];
      var here := if Has(history[1..], history[0].session) then [] else [history[0]];
      HasConcat(here, LastNotes(history[1..]), session);
    }
  }

  lemma {:induction false} LastNotesAreMap(history: seq<Note>)
    ensures IsMap(LastNotes(history))
  {
    if history != [] {
      LastNotesAreMap(history[1..]);
      LastNotesHave(history[1..], history[0].session);
    }
  }

  lemma TailAfter(front: seq<Note>, kept: seq<Note>, max: nat)
    requires |kept| == max || (|kept| < max && front == [])
    ensures Tail(front + kept, max) == kept
  {}

  lemma RecordKnown(front: seq<Note>, kept: seq<Note>, max: nat, n: Note)
    requires IsMap(front + kept) && Has(kept, n.session)
    requires |kept| == max || (|kept| < max && front == [])
    ensures Without(kept, n.session) + [n] == Tail(Without(front + kept, n.session) + [n], max)
  {
    WithoutConcat(front, kept, n.session);
    forall i | 0 <= i < |front| ensures front[i].session != n.session {
      var j :| 0 <= j < |kept| && kept[j].session == n.session;
      assert (front + kept)[i] == front[i] && (front + kept)[|front| + j] == kept[j];
    }
    WithoutAbsent(front, n.session);
    assert IsMap(kept) by {
      forall i, j | 0 <= i < j < |kept| ensures kept[i].session != kept[j].session {
        assert (front + kept)[|front| + i] == kept[i] && (front + kept)[|front| + j] == kept[j];
      }
    }
    WithoutPresent(kept, n.session);
    TailAfter(front, Without(kept, n.session) + [n], max);
    assert front + Without(kept, n.session) + [n] == front + (Without(kept, n.session) + [n]);
  }

  lemma RecordNewFull(front: seq<Note>, kept: seq<Note>, max: nat, n: Note)
    requires IsMap(front + kept) && !Has(kept, n.session) && |kept| == max >= 1
    ensures Without(kept[1..], n.session) + [n] == Tail(Without(front + kept, n.session) + [n], max)
  {
    WithoutConcat(front, kept, n.session);
    WithoutAbsent(kept, n.session);
    RestHasNot(kept, n.session);
    WithoutAbsent(kept[1..], n.session);
    TailShifts(Without(front, n.session), kept, n);
  }

  lemma RestHasNot(entries: seq<Note>, session: string)
    requires entries != [] && !Has(entries, session)
    ensures !Has(entries[1..], session)
  {}

  /** Behind a full record the oldest entry makes way for the new one. */
  lemma TailShifts(front: seq<Note>, kept: seq<Note>, n: Note)
    requires kept != []
    ensures Tail(front + kept + [n], |kept|) == kept[1..] + [n]
  {
    assert front + kept + [n] == (front + [kept[0]]) + (kept[1..] + [n]);
    TailAfter(front + [kept[0]], kept[1..] + [n], |kept|);
  }

  lemma RecordNew(front: seq<Note>, kept: seq<Note>, max: nat, n: Note)
    requires IsMap(front + kept) && !Has(kept, n.session) && max >= 1
    requires |kept| == max || (|kept| < max && front == [])
    ensures var room := if |kept| >= max then kept[1..] else kept;
            Without(room, n.session) + [n] == Tail(Without(front + kept, n.session) + [n], max)
  {
    if |kept| >= max {
      RecordNewFull(front, kept, max, n);
    } else {
      assert front + kept == kept;
      WithoutAbsent(kept, n.session);
      TailAfter([], kept + [n], max);
      assert [] + (kept + [n]) == kept + [n];
    }
  }

  /** One note changes the whole record of last notes and its bounded tail alike. */
  lemma RecordKeepsTail(all: seq<Note>, max: nat, n: Note)
    requires IsMap(all) && max >= 1
    ensures var kept := Tail(all, max);
            var room := if |kept| >= max && !Has(kept, n.session) then Without(kept, kept[0].session) else kept;
            Without(room, n.session) + [n] == Tail(Without(all, n.session) + [n], max)
  {
    var kept := Tail(all, max);
    var front := all[..|all| - |kept|];
    assert all == front + kept;
    if Has(kept, n.session) {
      RecordKnown(front, kept, max, n);
    } else {
      RecordNew(front, kept, max, n);
      if |kept| >= max {
        assert IsMap(kept);
        WithoutFirst(kept);
      }
    }
  }

  // ---- what is recorded of a session

  /** A session stays recorded, with its latest time, until `max` others have been noted after it. */
  lemma {:induction false} RecentlyNoted(history: seq<Note>, i: nat, max: nat)
    requires i < |history| && !Has(history[i + 1..], history[i].session)
    requires |LastNotes(history[i + 1..])| < max
    ensures history[i] in Tail(LastNotes(history), max)
  {
    LastNotesSuffix(history, i);
    var all, later := LastNotes(history), LastNotes(history[i + 1..]);
    var at := |all| - |later| - 1;
    assert all[at] == history[i];
    if |all| > max {
      assert all[|all| - max..][at - (|all| - max)] == history[i];
    }
  }

  lemma {:induction false} LastNotesSuffix(history: seq<Note>, i: nat)
    requires i < |history| && !Has(history[i + 1..], history[i].session)
    ensures var all, later := LastNotes(history), LastNotes(history[i + 1..]);
            |all| > |later| && all[|all| - |later| - 1] == history[i]
    decreases i
  {
    if i > 0 {
      assert history[1..][i - 1 + 1..] == history[i + 1..];
      LastNotesSuffix(history[1..], i - 1);
    }
  }
}
