/**
 * Comparing a local catalog with the service's copy of it: entry by entry
 * (to decide whether a revision date may be adopted, and to list the
 * entries that differ) and by the three metadata values the service
 * reports (creation date, revision date and a count).
 */
module Compare {
  import opened Wrappers
  import opened Catalog

  /** A date from a header or from the service; absent when missing or
      unreadable. */
  type Timestamp = Option<string>

  /** Local entries against the service's file, position by position,
      stopping at the first difference: `Some(true)` when every local entry
      agrees, `Some(false)` at a difference, `None` when the service's file
      runs out first (an `IndexError`).  Extra entries on the service's
      side are never looked at. */
  function EntriesSame(es: seq<Entry>, rs: seq<Entry>): (r: Option<bool>)
    ensures r == Some(true) <==> es <= rs
    ensures r == Some(false) <==> exists i :: 0 <= i < |es| && i < |rs| && es[i] != rs[i]
    ensures r.None? <==> |rs| < |es| && rs <= es
  {
    var m := if |es| <= |rs| then |es| else |rs|;
    if es[..m] != rs[..m] then
      var i := FirstDifference(es[..m], rs[..m]);
      assert es[i] == es[..m][i] && rs[i] == rs[..m][i];
      Some(false)
    else if |rs| < |es| then
      assert rs == es[..m];
      None
    else
      assert es == rs[..m];
      Some(true)
  }

  /** A position where two different sequences of one length differ. */
  function FirstDifference(a: seq<Entry>, b: seq<Entry>): (i: nat)
    requires |a| == |b| && a != b
    ensures i < |a| && a[i] != b[i]
    ensures forall j :: 0 <= j < i ==> a[j] == b[j]
  {
    if a[0] != b[0] then 0
    else
      assert a == [a[0]] + a[1..] && b == [b[0]] + b[1..];
      1 + FirstDifference(a[1..], b[1..])
  }

  /** The comparison loop of the revision-date check: walks the local
      entries and stops at the first one that differs. */
  method EntriesMatch(es: seq<Entry>, rs: seq<Entry>) returns (r: Option<bool>)
    ensures r == EntriesSame(es, rs)
  {
    var i := 0;
    while i < |es|
      invariant 0 <= i <= |es| && i <= |rs|
      invariant es[..i] == rs[..i]
    {
      if i >= |rs| {
        assert rs == es[..i];
        return None;
      }
      if es[i] != rs[i] {
        return Some(false);
      }
      assert es[..i + 1] == es[..i] + [es[i]];
      assert rs[..i + 1] == rs[..i] + [rs[i]];
      i := i + 1;
    }
    assert es == rs[..|es|];
    return Some(true);
  }

  /** An entry as the entry comparison sees it: for a source resource the
      translations do not take part, so they are blanked on both sides. */
  function Compared(e: Entry, resource: bool): (c: Entry)
    ensures c.msgid == e.msgid
    ensures c.msgstr == (if resource then "" else e.msgstr)
  {
    if resource then Entry(e.msgid, "") else e
  }

  /** The positions among the first `n` whose entries differ (each one gets
      a diff shown), in increasing order. */
  function Divergent(es: seq<Entry>, rs: seq<Entry>, resource: bool, n: nat): (d: seq<nat>)
    requires n <= |es| && n <= |rs|
    ensures forall i: nat :: i in d <==> i < n && Compared(es[i], resource) != Compared(rs[i], resource)
    ensures forall j :: 0 <= j < |d| ==> d[j] < n
    ensures forall j, k :: 0 <= j < k < |d| ==> d[j] < d[k]
  {
    if n == 0 then []
    else
      var prev := Divergent(es, rs, resource, n - 1);
      if Compared(es[n - 1], resource) != Compared(rs[n - 1], resource) then
        var d := prev + [n - 1];
        assert forall i: nat :: i in d <==> i in prev || i == n - 1;
        d
      else prev
  }

  /** One more position adds at most itself to the differences. */
  lemma DivergentStep(es: seq<Entry>, rs: seq<Entry>, resource: bool, n: nat)
    requires n < |es| && n < |rs|
    ensures Divergent(es, rs, resource, n + 1) == Divergent(es, rs, resource, n) +
      (if Compared(es[n], resource) != Compared(rs[n], resource) then [n] else [])
  {
  }

  /** In resource mode only the message ids are compared. */
  lemma {:induction false} DivergentResourceMode(es: seq<Entry>, rs: seq<Entry>, n: nat, i: nat)
    requires n <= |es| && n <= |rs|
    ensures i in Divergent(es, rs, true, n) <==> i < n && es[i].msgid != rs[i].msgid
  {
    if i < n {
      assert Compared(es[i], true) == Entry(es[i].msgid, "");
      assert Compared(rs[i], true) == Entry(rs[i].msgid, "");
    }
  }

  /** No entry is listed as different exactly when the revision-date check
      finds the two files the same. */
  lemma {:induction false} NoDivergenceIffSame(es: seq<Entry>, rs: seq<Entry>)
    requires |es| <= |rs|
    ensures Divergent(es, rs, false, |es|) == [] <==> EntriesSame(es, rs) == Some(true)
  {
    var d := Divergent(es, rs, false, |es|);
    if d == [] {
      forall i | 0 <= i < |es| ensures es[i] == rs[i] {
        assert i !in d;
        assert Compared(es[i], false) == es[i] && Compared(rs[i], false) == rs[i];
      }
      assert es == rs[..|es|];
    } else {
      var i := d[0];
      assert i in d && i < |es|;
      assert Compared(es[i], false) == es[i] && Compared(rs[i], false) == rs[i];
      assert es[i] != rs[i];
      assert rs[..|es|][i] == rs[i];
      assert !(es <= rs);
    }
  }

  // ------------------------------------------------------------ metadata

  /** The three values compared for a resource or a translation. */
  datatype Field = Creation | Revision | Count

  /** The values that differ, in the order they are reported. */
  function Differences(poCreation: Timestamp, poRevision: Timestamp, poCount: int,
                       txCreation: Timestamp, txRevision: Timestamp, txCount: int): (d: seq<Field>)
    ensures Creation in d <==> poCreation != txCreation
    ensures Revision in d <==> poRevision != txRevision
    ensures Count in d <==> poCount != txCount
    ensures forall j, k :: 0 <= j < k < |d| ==> d[j] != d[k]
  {
    (if poCreation != txCreation then [Creation] else []) +
    (if poRevision != txRevision then [Revision] else []) +
    (if poCount != txCount then [Count] else [])
  }

  /** A resource looks identical when creation date, revision date and
      string count all agree. */
  function ResourcesMetadataIdentical(poCreation: Timestamp, poRevision: Timestamp, poStringCount: int,
                                      txCreation: Timestamp, txRevision: Timestamp, txStringCount: int): (same: bool)
    ensures same <==> poCreation == txCreation && poRevision == txRevision && poStringCount == txStringCount
  {
    Differences(poCreation, poRevision, poStringCount, txCreation, txRevision, txStringCount) == []
  }

  /** A translation looks identical when creation date, revision date and
      number of translated entries all agree: the resource test with the
      translated count in place of the string count. */
  function TranslationsMetadataIdentical(poCreation: Timestamp, poRevision: Timestamp, poTranslated: int,
                                         txCreation: Timestamp, txRevision: Timestamp, txTranslated: int): (same: bool)
    ensures same <==> poCreation == txCreation && poRevision == txRevision && poTranslated == txTranslated
  {
    ResourcesMetadataIdentical(poCreation, poRevision, poTranslated, txCreation, txRevision, txTranslated)
  }

  /** Swapping the two sides reports the same fields. */
  lemma DifferencesSymmetric(pc: Timestamp, pr: Timestamp, pn: int, tc: Timestamp, tr: Timestamp, tn: int)
    ensures Differences(pc, pr, pn, tc, tr, tn) == Differences(tc, tr, tn, pc, pr, pn)
  {
  }
}
