/**
 * The safe synchronisation of one translation between the local PO file
 * and the service.  Entries are paired by position.  A translation is only
 * ever copied to a side where it is missing: local translations missing on
 * the service are pushed, translations missing locally are adopted, and an
 * entry translated differently on both sides is left alone.
 */
module Sync {
  import opened Wrappers
  import opened Catalog

  /** One translation unit as the service lists it: the source string and
      the translation, absent when the service holds none. */
  datatype RemoteUnit = RemoteUnit(sourceString: string, strings: Option<string>)

  /** The service's translation of a unit, "" when it holds none. */
  function RemoteText(u: RemoteUnit): string
  {
    match u.strings
    case None => ""
    case Some(s) => s
  }

  /** What synchronisation does with one position. */
  datatype EntryOutcome =
    | Mismatch     // the message ids differ: reported and skipped
    | InSync       // both sides hold the same translation
    | Conflict     // translated differently on both sides: left alone
    | LocalAhead   // translated only locally: pushed to the service
    | RemoteAhead  // translated only on the service: adopted locally

  function Classify(e: Entry, u: RemoteUnit): (o: EntryOutcome)
    ensures o == Mismatch <==> e.msgid != u.sourceString
    ensures o == InSync <==> e.msgid == u.sourceString && e.msgstr == RemoteText(u)
    ensures o == Conflict <==>
      e.msgid == u.sourceString && e.msgstr != RemoteText(u) && e.msgstr != "" && RemoteText(u) != ""
    ensures o == LocalAhead <==> e.msgid == u.sourceString && e.msgstr != "" && RemoteText(u) == ""
    ensures o == RemoteAhead <==> e.msgid == u.sourceString && e.msgstr == "" && RemoteText(u) != ""
  {
    var remote := RemoteText(u);
    if e.msgid != u.sourceString then Mismatch
    else if e.msgstr == remote then InSync
    else if e.msgstr != "" && remote != "" then Conflict
    else if e.msgstr != "" then LocalAhead
    else RemoteAhead
  }

  /** The local entry after synchronising one position. */
  function MergedEntry(e: Entry, u: RemoteUnit): Entry
  {
    if Classify(e, u) == RemoteAhead then Entry(e.msgid, RemoteText(u)) else e
  }

  /** The local entries once the first `n` positions are synchronised. */
  function MergedPrefix(es: seq<Entry>, us: seq<RemoteUnit>, n: nat): (r: seq<Entry>)
    requires n <= |es| && n <= |us|
    ensures |r| == |es|
    ensures forall i :: 0 <= i < n ==> r[i] == MergedEntry(es[i], us[i])
    ensures forall i :: n <= i < |es| ==> r[i] == es[i]
  {
    seq(|es|, i requires 0 <= i < |es| => if i < n then MergedEntry(es[i], us[i]) else es[i])
  }

  /** Synchronising one more position updates just that position. */
  lemma MergedPrefixStep(es: seq<Entry>, us: seq<RemoteUnit>, n: nat)
    requires n < |es| && n < |us|
    ensures MergedPrefix(es, us, n)[n := MergedEntry(es[n], us[n])] == MergedPrefix(es, us, n + 1)
  {
  }

  /** The local entries once every position is synchronised. */
  function Merged(es: seq<Entry>, us: seq<RemoteUnit>): (r: seq<Entry>)
    requires |es| <= |us|
    ensures |r| == |es|
  {
    MergedPrefix(es, us, |es|)
  }

  /** The positions among the first `n` whose local translation is pushed,
      in increasing order. */
  function PushIndices(es: seq<Entry>, us: seq<RemoteUnit>, n: nat): (r: seq<nat>)
    requires n <= |es| && n <= |us|
    ensures forall i: nat :: i in r <==> i < n && Classify(es[i], us[i]) == LocalAhead
    ensures forall j :: 0 <= j < |r| ==> r[j] < n
    ensures forall j, k :: 0 <= j < k < |r| ==> r[j] < r[k]
  {
    if n == 0 then []
    else
      var prev := PushIndices(es, us, n - 1);
      if Classify(es[n - 1], us[n - 1]) == LocalAhead then
        var r := prev + [n - 1];
        assert forall i: nat :: i in r <==> i in prev || i == n - 1;
        r
      else prev
  }

  /** Some position among the first `n` is adopted from the service, so the
      local file has to be written. */
  predicate AdoptsAny(es: seq<Entry>, us: seq<RemoteUnit>, n: nat)
    requires n <= |es| && n <= |us|
  {
    exists i :: 0 <= i < n && Classify(es[i], us[i]) == RemoteAhead
  }

  /** One more position adds at most itself to the pushes. */
  lemma PushIndicesStep(es: seq<Entry>, us: seq<RemoteUnit>, n: nat)
    requires n < |es| && n < |us|
    ensures PushIndices(es, us, n + 1) ==
      PushIndices(es, us, n) + (if Classify(es[n], us[n]) == LocalAhead then [n] else [])
  {
  }

  /** One more position adopts something iff it is adopted itself or an
      earlier one was. */
  lemma AdoptsAnyStep(es: seq<Entry>, us: seq<RemoteUnit>, n: nat)
    requires n < |es| && n < |us|
    ensures AdoptsAny(es, us, n + 1) <==> AdoptsAny(es, us, n) || Classify(es[n], us[n]) == RemoteAhead
  {
    if AdoptsAny(es, us, n + 1) && Classify(es[n], us[n]) != RemoteAhead {
      var i :| 0 <= i < n + 1 && Classify(es[i], us[i]) == RemoteAhead;
      assert i < n;
    }
  }

  /** The service's units once the pushed translations are saved there. */
  function ApplyPushes(us: seq<RemoteUnit>, es: seq<Entry>, pushes: seq<nat>): (r: seq<RemoteUnit>)
    requires forall j :: 0 <= j < |pushes| ==> pushes[j] < |es| && pushes[j] < |us|
    ensures |r| == |us|
    ensures forall i :: 0 <= i < |us| ==>
      r[i] == (if i in pushes then RemoteUnit(us[i].sourceString, Some(es[i].msgstr)) else us[i])
  {
    seq(|us|, i requires 0 <= i < |us| =>
      if i in pushes then RemoteUnit(us[i].sourceString, Some(es[i].msgstr)) else us[i])
  }

  /** A translation the local file already holds is never replaced. */
  lemma LocalTranslationsKept(es: seq<Entry>, us: seq<RemoteUnit>, i: int)
    requires |es| <= |us| && 0 <= i < |es|
    requires es[i].msgstr != ""
    ensures Merged(es, us)[i] == es[i]
  {
  }

  /** A local entry only changes by receiving the service's translation
      into an empty slot, and then both sides agree. */
  lemma {:induction false} OnlyBlanksFilled(es: seq<Entry>, us: seq<RemoteUnit>, i: int)
    requires |es| <= |us| && 0 <= i < |es|
    ensures Merged(es, us)[i] != es[i] <==> Classify(es[i], us[i]) == RemoteAhead
    ensures Merged(es, us)[i] != es[i] ==>
      es[i].msgstr == "" && Merged(es, us)[i] == Entry(es[i].msgid, RemoteText(us[i]))
  {
    assert Merged(es, us)[i] == MergedEntry(es[i], us[i]);
  }

  /** A pushed translation is the local one, unchanged by the merge. */
  lemma PushedEntriesUnchanged(es: seq<Entry>, us: seq<RemoteUnit>, i: nat)
    requires |es| <= |us|
    requires i in PushIndices(es, us, |es|)
    ensures i < |es| && Merged(es, us)[i] == es[i] && es[i].msgstr != ""
  {
  }

  /** After one synchronisation no position is translated on one side only:
      every position is in sync, in conflict or mismatched. */
  lemma {:induction false} SyncConverges(es: seq<Entry>, us: seq<RemoteUnit>, i: int)
    requires |es| <= |us| && 0 <= i < |es|
    ensures var pushes := PushIndices(es, us, |es|);
      var o := Classify(Merged(es, us)[i], ApplyPushes(us, Merged(es, us), pushes)[i]);
      o == InSync || o == Conflict || o == Mismatch
  {
    var pushes := PushIndices(es, us, |es|);
    var m := Merged(es, us);
    var u := ApplyPushes(us, m, pushes)[i];
    assert m[i] == MergedEntry(es[i], us[i]);
    match Classify(es[i], us[i])
    case LocalAhead =>
      assert i in pushes;
      assert u == RemoteUnit(us[i].sourceString, Some(m[i].msgstr));
    case RemoteAhead =>
      assert i !in pushes;
      assert m[i] == Entry(es[i].msgid, RemoteText(us[i]));
    case _ =>
      assert i !in pushes;
  }

  /** Synchronising a second time finds nothing to push and nothing to
      adopt. */
  lemma {:induction false} SyncIdempotent(es: seq<Entry>, us: seq<RemoteUnit>)
    requires |es| <= |us|
    ensures var m := Merged(es, us);
      var u := ApplyPushes(us, m, PushIndices(es, us, |es|));
      PushIndices(m, u, |m|) == [] && !AdoptsAny(m, u, |m|) && Merged(m, u) == m
  {
    var m := Merged(es, us);
    var u := ApplyPushes(us, m, PushIndices(es, us, |es|));
    forall i | 0 <= i < |m|
      ensures Classify(m[i], u[i]) != LocalAhead && Classify(m[i], u[i]) != RemoteAhead
    {
      SyncConverges(es, us, i);
    }
    var p := PushIndices(m, u, |m|);
    assert forall i: nat :: i !in p;
    EmptyWithoutMembers(p);
    assert forall i :: 0 <= i < |m| ==> Merged(m, u)[i] == MergedEntry(m[i], u[i]);
  }

  /** A sequence of indices with no member is empty. */
  lemma EmptyWithoutMembers(p: seq<nat>)
    ensures (forall i: nat :: i !in p) ==> p == []
  {
    if p != [] {
      assert p[0] in p;
    }
  }
}
