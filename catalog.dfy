/**
 * The translation catalog (a gettext PO file) as the core sees it: an
 * ordered sequence of entries plus a header of metadata fields.  Parsing
 * and writing the file format belong to the catalog library and are not
 * modelled; `Save` only records that the file was written.
 */
module Catalog {
  import opened Text

  /** One message: its id (the English source text or a key) and its
      translation (empty while untranslated). */
  datatype Entry = Entry(msgid: string, msgstr: string)

  /** A header value.  Read from disk every value is text; the core itself
      stores the percentage as a number. */
  datatype MetaValue = Str(s: string) | Num(n: int)

  type Metadata = map<string, MetaValue>

  /** `metadata.get(key, default)`. */
  function Lookup(md: Metadata, key: string, default: MetaValue): (v: MetaValue)
    ensures key in md ==> v == md[key]
    ensures key !in md ==> v == default
  {
    if key in md then md[key] else default
  }

  predicate Translated(e: Entry)
  {
    e.msgstr != ""
  }

  /** The number of translated entries. */
  function CountTranslated(es: seq<Entry>): (n: nat)
    ensures n <= |es|
    ensures n == |es| <==> forall i :: 0 <= i < |es| ==> Translated(es[i])
    ensures n == 0 <==> forall i :: 0 <= i < |es| ==> !Translated(es[i])
  {
    if es == [] then 0
    else CountTranslated(es[..|es| - 1]) + (if Translated(es[|es| - 1]) then 1 else 0)
  }

  /** The catalog library's percentage of translated entries, rounded
      down; an empty catalog counts as fully translated. */
  function PercentTranslated(es: seq<Entry>): (p: nat)
    ensures p <= 100
    ensures p == 100 <==> forall i :: 0 <= i < |es| ==> Translated(es[i])
    ensures es != [] ==> (p == 0 <==> CountTranslated(es) * 100 < |es|)
  {
    if es == [] then 100
    else
      PercentOf(CountTranslated(es), |es|);
      CountTranslated(es) * 100 / |es|
  }

  /** Bounds of `n * 100 / d` for a count `n` out of `d`. */
  lemma PercentOf(n: nat, d: nat)
    requires 0 < d && n <= d
    ensures n * 100 / d <= 100
    ensures n * 100 / d == 100 <==> n == d
    ensures n * 100 / d == 0 <==> n * 100 < d
  {
    var m := n * 100;
    var q := m / d;
    assert m == q * d + m % d && 0 <= m % d < d;
    if q >= 101 {
      MulMono(101, q, d);
      assert false;
    }
    if n == d {
      assert m == 100 * d + 0;
      DivUnique(m, d, 100, 0);
    } else {
      assert m <= 100 * d - 100;
      if q == 100 {
        assert false;
      }
    }
    if m < d {
      DivUnique(m, d, 0, m);
    } else if q == 0 {
      assert false;
    }
  }

  lemma MulMono(a: nat, b: nat, c: nat)
    requires a <= b
    ensures a * c <= b * c
  {
  }

  lemma DivUnique(m: nat, d: nat, q: nat, r: nat)
    requires 0 < d && r < d && m == q * d + r
    ensures m / d == q
  {
    var q' := m / d;
    var r' := m % d;
    assert m == q' * d + r';
    if q' < q {
      MulMono(q' + 1, q, d);
      assert false;
    } else if q' > q {
      MulMono(q + 1, q', d);
      assert false;
    }
  }

  /** The entries with every translation blanked: only the message ids
      remain, as uploaded when seeding a source resource. */
  function Blanked(es: seq<Entry>): (r: seq<Entry>)
    ensures |r| == |es|
    ensures forall i :: 0 <= i < |es| ==> r[i] == Entry(es[i].msgid, "")
  {
    seq(|es|, i requires 0 <= i < |es| => Entry(es[i].msgid, ""))
  }

  /** The entries with the first `n` translations blanked. */
  function BlankedPrefix(es: seq<Entry>, n: nat): (r: seq<Entry>)
    requires n <= |es|
    ensures |r| == |es|
    ensures forall i :: 0 <= i < n ==> r[i] == Entry(es[i].msgid, "")
    ensures forall i :: n <= i < |es| ==> r[i] == es[i]
  {
    seq(|es|, i requires 0 <= i < |es| => if i < n then Entry(es[i].msgid, "") else es[i])
  }

  /** Blanking one more entry extends the blanked prefix by one. */
  lemma BlankedPrefixStep(es: seq<Entry>, n: nat)
    requires n < |es|
    ensures BlankedPrefix(es, n)[n := Entry(es[n].msgid, "")] == BlankedPrefix(es, n + 1)
  {
  }

  /** How the header looks once the file is written and read back: the
      library writes every value as text. */
  function Reloaded(md: Metadata): (r: Metadata)
    ensures r.Keys == md.Keys
    ensures forall k :: k in md && md[k].Str? ==> r[k] == md[k]
    ensures forall k :: k in md && md[k].Num? && md[k].n >= 0 ==> r[k] == Str(DecimalString(md[k].n))
  {
    map k | k in md :: match md[k]
      case Str(s) => Str(s)
      case Num(n) => Str(if n >= 0 then DecimalString(n) else "-" + DecimalString(-n))
  }

  /** A PO file loaded in memory.  The core edits its entries and header in
      place and asks the library to write it; `saves` counts the writes. */
  class PoFile {
    var entries: seq<Entry>
    var metadata: Metadata
    ghost var saves: nat

    constructor (es: seq<Entry>, md: Metadata)
      ensures entries == es && metadata == md && saves == 0
    {
      entries := es;
      metadata := md;
      saves := 0;
    }

    /** Write the file to its path. */
    method Save()
      modifies this`saves
      ensures saves == old(saves) + 1
    {
      saves := saves + 1;
    }

    /** Blank every translation in place, one entry at a time. */
    method BlankTranslations()
      modifies this`entries
      ensures entries == Blanked(old(entries))
    {
      var i := 0;
      while i < |entries|
        invariant 0 <= i <= |entries| == |old(entries)|
        invariant entries == BlankedPrefix(old(entries), i)
      {
        entries := entries[i := Entry(entries[i].msgid, "")];
        i := i + 1;
      }
    }
  }
}
