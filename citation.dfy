/** Citations of retrieved passages (chatdoc/citation.py).

    A citation names the source document and the 1-based page a passage came
    from and, in proof mode, the passage text itself. Citations are frozen
    values compared field by field, so a set of them absorbs duplicates. */
module Citation {

  import opened Results
  import opened JsonValues
  import PathNames

  /** `BaseCitation` and its subclass `ProofCitation`. */
  datatype Citation =
    | BaseCitation(source: string, page: int)
    | ProofCitation(source: string, page: int, proof: string)

  /** The `__eq__` a frozen dataclass gets: both sides of the same class, then
      the tuples of their fields compared. */
  predicate DataclassEq(a: Citation, b: Citation)
    ensures DataclassEq(a, b) ==> a.ProofCitation? == b.ProofCitation?
    ensures DataclassEq(a, b) ==> a.source == b.source && a.page == b.page
  {
    match (a, b)
    case (BaseCitation(s, p), BaseCitation(s', p')) => (s, p) == (s', p')
    case (ProofCitation(s, p, q), ProofCitation(s', p', q')) => (s, p, q) == (s', p', q')
    case _ => false
  }

  /** Set membership in Python uses `__eq__`; it is exactly value equality. */
  lemma DataclassEqIsEquality(a: Citation, b: Citation)
    ensures DataclassEq(a, b) <==> a == b
  {
  }

  // ---------------------------------------------------------------------
  // Text rendering

  function DigitChar(d: nat): (c: char)
    requires d < 10
    ensures '0' <= c <= '9'
  {
    "0123456789"[d]
  }

  /** Python's `str(n)` for a non-negative integer. */
  function NatToString(n: nat): (s: string)
    ensures s != []
    ensures forall k :: 0 <= k < |s| ==> '0' <= s[k] <= '9'
  {
    if n < 10 then [DigitChar(n)] else NatToString(n / 10) + [DigitChar(n % 10)]
  }

  /** Python's `str(i)`: a minus sign before the digits of a negative number. */
  function IntToString(i: int): (s: string)
    ensures s != [] && (s[0] == '-' <==> i < 0)
    ensures var digits := if i < 0 then s[1..] else s;
            && digits != []
            && (forall k :: 0 <= k < |digits| ==> '0' <= digits[k] <= '9')
            && DecimalValue(digits) == if i < 0 then -i else i
    ensures var digits := if i < 0 then s[1..] else s;
            |digits| > 1 ==> digits[0] != '0'
  {
    var digits := NatToString(if i < 0 then -i else i);
    NatToStringRoundTrip(if i < 0 then -i else i);
    NoLeadingZero(if i < 0 then -i else i);
    if i < 0 then
      assert ("-" + digits)[1..] == digits;
      "-" + digits
    else
      digits
  }

  /** `str(n)` never pads: only the number zero itself starts with '0'. */
  lemma {:induction false} NoLeadingZero(n: nat)
    ensures |NatToString(n)| > 1 ==> NatToString(n)[0] != '0'
  {
    if n >= 10 {
      NoLeadingZero(n / 10);
      assert NatToString(n)[0] == NatToString(n / 10)[0];
    }
  }

  /** The value a string of decimal digits denotes. */
  function DecimalValue(s: string): (n: nat)
    requires forall k :: 0 <= k < |s| ==> '0' <= s[k] <= '9'
  {
    if s == [] then 0 else 10 * DecimalValue(s[..|s| - 1]) + (s[|s| - 1] - '0') as nat
  }

  /** The rendered page number reads back as the page number. */
  lemma {:induction false} NatToStringRoundTrip(n: nat)
    ensures DecimalValue(NatToString(n)) == n
  {
    if n >= 10 {
      var s := NatToString(n);
      assert s[..|s| - 1] == NatToString(n / 10);
      NatToStringRoundTrip(n / 10);
    }
  }

  const PageSeparator := " on page "
  const ProofSeparator := "; PROOF: "

  /** `format_citation_text`: " - {source} on page {page}", followed by
      "; PROOF: {proof}" for a `ProofCitation`. */
  function FormatCitationText(c: Citation): (t: string)
    ensures " - " + c.source + PageSeparator <= t
    ensures c.ProofCitation? ==> EndsWith(t, ProofSeparator + c.proof)
    ensures c.BaseCitation? ==> t[|" - " + c.source + PageSeparator|..] == IntToString(c.page)
    ensures c.ProofCitation? ==>
              t[|" - " + c.source + PageSeparator|..] == IntToString(c.page) + ProofSeparator + c.proof
  {
    var head := " - " + c.source + PageSeparator;
    var page := IntToString(c.page);
    match c
    case BaseCitation(_, _) =>
      Concatenation(head, page, "");
      head + page
    case ProofCitation(_, _, proof) =>
      Concatenation(head, page, ProofSeparator + proof);
      head + page + (ProofSeparator + proof)
  }

  /** How the three parts of a rendered citation sit in the text. */
  lemma Concatenation(head: string, middle: string, tail: string)
    ensures head <= head + middle + tail
    ensures (head + middle)[|head|..] == middle
    ensures (head + middle + tail)[|head|..] == middle + tail
    ensures EndsWith(head + middle + tail, tail)
  {
    assert (head + middle)[|head|..] == middle;
    assert (head + middle + tail)[|head|..] == middle + tail;
    assert (head + middle + tail)[|head + middle|..] == tail;
  }

  predicate EndsWith(t: string, suffix: string) {
    |suffix| <= |t| && t[|t| - |suffix|..] == suffix
  }

  /** A proof citation renders as the base citation of the same source and
      page, extended by its proof. */
  lemma ProofTextExtendsBaseText(source: string, page: int, proof: string)
    ensures FormatCitationText(ProofCitation(source, page, proof))
         == FormatCitationText(BaseCitation(source, page)) + ProofSeparator + proof
  {
  }

  /** Merging "proof" and then "text" into a parent dict appends "proof" and
      leaves the other keys where they were. */
  lemma MergeProof(parent: seq<(string, Json)>, proof: string, text: string)
    requires Keys(parent) == ["source", "page", "text"]
    ensures var d := Put(Put(parent, "proof", JString(proof)), "text", JString(text));
            && Keys(d) == ["source", "page", "text", "proof"]
            && Get(d, "text") == Some(JString(text))
            && Get(d, "proof") == Some(JString(proof))
            && Get(d, "source") == Get(parent, "source")
            && Get(d, "page") == Get(parent, "page")
  {
    var merged := Put(parent, "proof", JString(proof));
    assert "proof" !in Keys(parent);
    assert Keys(merged) == ["source", "page", "text", "proof"];
    assert "text" in Keys(merged);
  }

  /** `__dict__`: "source", "page" and "text" for every citation; a
      `ProofCitation` merges "proof" and then "text" into its parent's dict,
      whose "text" already came from the overriding `format_citation_text`. */
  function CitationDict(c: Citation): (d: seq<(string, Json)>)
    ensures Keys(d) == ["source", "page", "text"] + (if c.ProofCitation? then ["proof"] else [])
    ensures Get(d, "source") == Some(JString(c.source))
    ensures Get(d, "page") == Some(JInt(c.page))
    ensures Get(d, "text") == Some(JString(FormatCitationText(c)))
    ensures c.ProofCitation? ==> Get(d, "proof") == Some(JString(c.proof))
  {
    var text := FormatCitationText(c);
    var parent := ParentDict(c.source, c.page, text);
    match c
    case BaseCitation(_, _) => parent
    case ProofCitation(_, _, proof) =>
      MergeProof(parent, proof, text);
      Put(Put(parent, "proof", JString(proof)), "text", JString(text))
  }

  /** The dict `BaseCitation.__dict__` builds from the three values. */
  function ParentDict(source: string, page: int, text: string): (d: seq<(string, Json)>)
    ensures Keys(d) == ["source", "page", "text"]
    ensures Get(d, "source") == Some(JString(source))
    ensures Get(d, "page") == Some(JInt(page))
    ensures Get(d, "text") == Some(JString(text))
    ensures Get(d, "proof") == None
  {
    var d := [("source", JString(source)), ("page", JInt(page)), ("text", JString(text))];
    assert d[1..][1..][1..] == [];
    assert Keys(d[1..][1..]) == ["text"];
    assert Keys(d[1..]) == ["page", "text"];
    assert "source" != "text" && "page" != "text";
    assert Get(d, "text") == Get(d[1..], "text") == Get(d[1..][1..], "text");
    d
  }

  // ---------------------------------------------------------------------
  // Passages and the citations they yield

  /** A retrieved passage: its text and the two metadata entries the core
      reads, either of which may be missing from the metadata dict. */
  datatype Passage = Passage(pageContent: string, source: Option<string>, page: Option<int>)

  /** The `KeyError` raised for a missing metadata entry. */
  datatype KeyError = KeyError(key: string)

  predicate WellFormed(p: Passage) {
    p.source.Some? && p.page.Some?
  }

  predicate AllWellFormed(ps: seq<Passage>) {
    forall i :: 0 <= i < |ps| ==> WellFormed(ps[i])
  }

  /** The error a malformed passage raises: "source" is looked up first. */
  function MissingKey(p: Passage): (e: KeyError)
    requires !WellFormed(p)
    ensures e.key == "source" <==> p.source.None?
    ensures e.key == "source" || e.key == "page"
  {
    if p.source.None? then KeyError("source") else KeyError("page")
  }

  /** The citation `add_citation` builds for one source, page and text. */
  function MakeCitation(withProof: bool, source: string, page: int, proof: string): (c: Citation)
    ensures c.ProofCitation? <==> withProof
    ensures c.source == source && c.page == page
    ensures withProof ==> c.proof == proof
  {
    if withProof then ProofCitation(source, page, proof) else BaseCitation(source, page)
  }

  /** The cited source: the date-stripped file name of the passage's path.
      `stripDate` stands for `Utils.remove_date_from_filename`. */
  function CitedSource(p: Passage, stripDate: string -> string): (name: string)
    requires p.source.Some?
  {
    stripDate(PathNames.Name(p.source.value))
  }

  /** The citation one well-formed passage contributes. */
  function CitationOf(p: Passage, withProof: bool, stripDate: string -> string): (c: Citation)
    requires WellFormed(p)
    ensures c.source == CitedSource(p, stripDate)
    ensures c.page == p.page.value + 1
    ensures c.ProofCitation? <==> withProof
    ensures withProof ==> c.proof == p.pageContent
  {
    MakeCitation(withProof, CitedSource(p, stripDate), p.page.value + 1, p.pageContent)
  }

  /** The citations of a sequence of well-formed passages, accumulated in
      order as `get_unique_citations` does. */
  function Cited(ps: seq<Passage>, withProof: bool, stripDate: string -> string): (cs: set<Citation>)
    requires AllWellFormed(ps)
    ensures forall c :: c in cs ==> (c.ProofCitation? <==> withProof)
  {
    if ps == [] then {}
    else Cited(ps[..|ps| - 1], withProof, stripDate) + {CitationOf(ps[|ps| - 1], withProof, stripDate)}
  }

  /** Duplicates are absorbed: never more citations than passages. */
  lemma {:induction false} CitedSize(ps: seq<Passage>, withProof: bool, stripDate: string -> string)
    requires AllWellFormed(ps)
    ensures |Cited(ps, withProof, stripDate)| <= |ps|
  {
    if ps != [] {
      CitedSize(ps[..|ps| - 1], withProof, stripDate);
    }
  }

  /** The length of the longest prefix of well-formed passages: how far
      `get_unique_citations` gets before a `KeyError`. */
  function ValidPrefix(ps: seq<Passage>): (k: nat)
    ensures k <= |ps|
    ensures AllWellFormed(ps[..k])
    ensures k < |ps| ==> !WellFormed(ps[k])
  {
    if ps == [] || !WellFormed(ps[0]) then 0
    else
      var k := 1 + ValidPrefix(ps[1..]);
      assert ps[..k] == [ps[0]] + ps[1..][..k - 1];
      k
  }

  /** A citation is in the result iff some passage yields it. */
  lemma {:induction false} CitedMembers(ps: seq<Passage>, withProof: bool, stripDate: string -> string, c: Citation)
    requires AllWellFormed(ps)
    ensures c in Cited(ps, withProof, stripDate)
        <==> exists i :: 0 <= i < |ps| && c == CitationOf(ps[i], withProof, stripDate)
  {
    if ps != [] {
      var init := ps[..|ps| - 1];
      CitedMembers(init, withProof, stripDate, c);
      if c in Cited(init, withProof, stripDate) {
        var i :| 0 <= i < |init| && c == CitationOf(init[i], withProof, stripDate);
        assert ps[i] == init[i];
      }
      if exists i :: 0 <= i < |ps| && c == CitationOf(ps[i], withProof, stripDate) {
        var i :| 0 <= i < |ps| && c == CitationOf(ps[i], withProof, stripDate);
        if i < |init| { assert init[i] == ps[i]; }
      }
    }
  }

  /** The result does not depend on the order of the passages: any
      permutation yields the same set. */
  lemma OrderIndependent(ps: seq<Passage>, qs: seq<Passage>, withProof: bool, stripDate: string -> string)
    requires AllWellFormed(ps) && multiset(ps) == multiset(qs)
    ensures AllWellFormed(qs)
    ensures Cited(ps, withProof, stripDate) == Cited(qs, withProof, stripDate)
  {
    forall j | 0 <= j < |qs| ensures WellFormed(qs[j]) {
      assert qs[j] in multiset(qs);
      var i :| 0 <= i < |ps| && ps[i] == qs[j];
    }
    forall c | c in Cited(ps, withProof, stripDate) ensures c in Cited(qs, withProof, stripDate) {
      CitedMembers(ps, withProof, stripDate, c);
      var i :| 0 <= i < |ps| && c == CitationOf(ps[i], withProof, stripDate);
      assert ps[i] in multiset(qs);
      var j :| 0 <= j < |qs| && qs[j] == ps[i];
      CitedMembers(qs, withProof, stripDate, c);
    }
    forall c | c in Cited(qs, withProof, stripDate) ensures c in Cited(ps, withProof, stripDate) {
      CitedMembers(qs, withProof, stripDate, c);
      var j :| 0 <= j < |qs| && c == CitationOf(qs[j], withProof, stripDate);
      assert qs[j] in multiset(ps);
      var i :| 0 <= i < |ps| && ps[i] == qs[j];
      CitedMembers(ps, withProof, stripDate, c);
    }
  }

  /** Citing a passage again changes nothing. */
  lemma RepeatedPassageAbsorbed(ps: seq<Passage>, p: Passage, withProof: bool, stripDate: string -> string)
    requires AllWellFormed(ps) && WellFormed(p)
    ensures AllWellFormed(ps + [p] + [p])
    ensures Cited(ps + [p] + [p], withProof, stripDate) == Cited(ps + [p], withProof, stripDate)
  {
    assert (ps + [p] + [p])[..|ps| + 1] == ps + [p];
    assert (ps + [p])[..|ps|] == ps;
  }

  /** Two passages yield the same citation iff they share the cited source
      and page and, in proof mode, also their text. */
  lemma SameCitation(p: Passage, q: Passage, withProof: bool, stripDate: string -> string)
    requires WellFormed(p) && WellFormed(q)
    ensures CitationOf(p, withProof, stripDate) == CitationOf(q, withProof, stripDate)
        <==> && CitedSource(p, stripDate) == CitedSource(q, stripDate)
             && p.page == q.page
             && (withProof ==> p.pageContent == q.pageContent)
  {
  }

  /** Without proof every citation is a `BaseCitation`, so no two citations
      in the result share a source and a page. */
  lemma UniqueWithoutProof(ps: seq<Passage>, stripDate: string -> string)
    requires AllWellFormed(ps)
    ensures forall c :: c in Cited(ps, false, stripDate) ==> c.BaseCitation?
    ensures forall a, b ::
              (a in Cited(ps, false, stripDate) && b in Cited(ps, false, stripDate)
               && a.source == b.source && a.page == b.page) ==> a == b
  {
  }

  /** Three passages of one source and page, two of them with equal text:
      two citations with proof, one without. */
  lemma ProofModeExample(source: string, stripDate: string -> string)
    ensures var ps := [Passage("x", Some(source), Some(0)), Passage("x", Some(source), Some(0)),
                       Passage("y", Some(source), Some(0))];
            && AllWellFormed(ps)
            && |Cited(ps, true, stripDate)| == 2
            && |Cited(ps, false, stripDate)| == 1
  {
    var ps := [Passage("x", Some(source), Some(0)), Passage("x", Some(source), Some(0)),
               Passage("y", Some(source), Some(0))];
    var s := stripDate(PathNames.Name(source));
    assert ps[..2][..1] == ps[..1];
    assert ps[..1][..0] == [];
    forall withProof: bool
      ensures Cited(ps, withProof, stripDate)
           == {CitationOf(ps[0], withProof, stripDate), CitationOf(ps[2], withProof, stripDate)}
    {
      assert Cited(ps[..1], withProof, stripDate) == {CitationOf(ps[0], withProof, stripDate)};
      assert Cited(ps[..2], withProof, stripDate) == {CitationOf(ps[0], withProof, stripDate)};
    }
    assert "x" != "y";
    assert ProofCitation(s, 1, "x") != ProofCitation(s, 1, "y");
  }

  // ---------------------------------------------------------------------
  // The mutable collection

  /** `Citations`: a set of citations filled in place, and whether new
      citations carry their proof. */
  class Citations {
    var citations: set<Citation>
    const withProof: bool

    constructor (citations: set<Citation>, withProof: bool)
      ensures this.citations == citations && this.withProof == withProof
    {
      this.citations := citations;
      this.withProof := withProof;
    }

    /** `add_citation`: insert the citation for this source, page and text. */
    method AddCitation(source: string, page: int, proof: string)
      modifies this
      ensures citations == old(citations) + {MakeCitation(withProof, source, page, proof)}
    {
      var citation := if withProof then ProofCitation(source, page, proof) else BaseCitation(source, page);
      citations := citations + {citation};
    }

    /** `get_unique_citations`: add the citation of every passage, in order,
        to the existing set. A passage missing "source" or "page" raises
        `KeyError`; the citations of the passages before it stay added. */
    method GetUniqueCitations(ps: seq<Passage>, stripDate: string -> string) returns (err: Option<KeyError>)
      modifies this
      ensures var k := ValidPrefix(ps);
              && citations == old(citations) + Cited(ps[..k], withProof, stripDate)
              && err == if k == |ps| then None else Some(MissingKey(ps[k]))
    {
      var i := 0;
      while i < |ps|
        invariant 0 <= i <= |ps|
        invariant AllWellFormed(ps[..i])
        invariant citations == old(citations) + Cited(ps[..i], withProof, stripDate)
      {
        var passage := ps[i];
        if passage.source.None? {
          ValidPrefixStops(ps, i);
          return Some(KeyError("source"));
        }
        var source := stripDate(PathNames.Name(passage.source.value));
        if passage.page.None? {
          ValidPrefixStops(ps, i);
          return Some(KeyError("page"));
        }
        var page := passage.page.value + 1;
        AddCitation(source, page, passage.pageContent);
        CitedStep(ps, i, withProof, stripDate);
        i := i + 1;
      }
      assert ps[..i] == ps;
      ValidPrefixStops(ps, i);
      return None;
    }

    /** `Citations.__dict__`, listing the set in the iteration order `order`
        (Python leaves a set's order unspecified). */
    function ToDict(order: seq<Citation>): (d: Json)
      reads this
      requires Enumerates(order, citations)
      ensures d.JObject? && Keys(d.fields) == ["citations", "with_proof"]
      ensures Get(d.fields, "with_proof") == Some(JBool(withProof))
      ensures var listed := Get(d.fields, "citations");
              && listed.Some? && listed.value.JArray?
              && |listed.value.items| == |order| == |citations|
              && forall i :: 0 <= i < |order| ==> listed.value.items[i] == JObject(CitationDict(order[i]))
    {
      EnumerationSize(order, citations);
      JObject([("citations", JArray(seq(|order|, i requires 0 <= i < |order| => JObject(CitationDict(order[i]))))),
               ("with_proof", JBool(withProof))])
    }
  }

  /** `order` lists every element of `s` exactly once. */
  predicate Enumerates(order: seq<Citation>, s: set<Citation>) {
    && (forall i, j :: 0 <= i < j < |order| ==> order[i] != order[j])
    && (forall i :: 0 <= i < |order| ==> order[i] in s)
    && (forall c :: c in s ==> c in order)
  }

  lemma {:induction false} EnumerationSize(order: seq<Citation>, s: set<Citation>)
    requires Enumerates(order, s)
    ensures |order| == |s|
  {
    if order != [] {
      var last := order[|order| - 1];
      var init := order[..|order| - 1];
      forall c ensures c in init <==> c in s - {last} {
        if c in init {
          var i :| 0 <= i < |init| && init[i] == c;
          assert order[i] == c;
        }
        if c in s - {last} {
          assert c in order;
          var i :| 0 <= i < |order| && order[i] == c;
          assert i < |init|;
          assert init[i] == c;
        }
      }
      EnumerationSize(init, s - {last});
    }
  }

  /** One more well-formed passage adds its citation. */
  lemma CitedStep(ps: seq<Passage>, i: nat, withProof: bool, stripDate: string -> string)
    requires i < |ps| && AllWellFormed(ps[..i]) && WellFormed(ps[i])
    ensures AllWellFormed(ps[..i + 1])
    ensures Cited(ps[..i + 1], withProof, stripDate)
         == Cited(ps[..i], withProof, stripDate) + {CitationOf(ps[i], withProof, stripDate)}
  {
    assert ps[..i + 1][..i] == ps[..i];
  }

  /** The index `GetUniqueCitations` stops at is the valid prefix. */
  lemma ValidPrefixStops(ps: seq<Passage>, i: nat)
    requires i <= |ps| && AllWellFormed(ps[..i])
    requires i < |ps| ==> !WellFormed(ps[i])
    ensures ValidPrefix(ps) == i
  {
    var k := ValidPrefix(ps);
    forall j | 0 <= j < i ensures WellFormed(ps[j]) {
      assert ps[j] == ps[..i][j];
    }
    forall j | 0 <= j < k ensures WellFormed(ps[j]) {
      assert ps[j] == ps[..k][j];
    }
  }
}
