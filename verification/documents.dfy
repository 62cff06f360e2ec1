/** The document libraries as black boxes, and the small pieces of logic the
    repository builds on top of them: the page loop of the PDF reader, the
    pre-order walk of the DOCX fallback, and the rules that turn the
    libraries' outcomes into one string or a 400 error. Both the FileProcessor
    and the older app.py extraction use these, each with its own error
    message prefix. */
module Documents {
  import opened Common
  import opened Strings

  /** An ElementTree element: its optional `.text` and its children in
      document order (`.tail` is not modelled: the code never reads it). */
  datatype XmlElement = XmlElement(text: Option<string>, children: seq<XmlElement>)

  /** The foreign libraries, each a function of the bytes of the temporary
      file that may raise:
      - `pdfPages`: PyPDF2's reader, giving per page the outcome of
        `page.extract_text()`, or raising when the file cannot be opened;
      - `docxParagraphs`: python-docx's `Document(path).paragraphs` texts;
      - `documentXml`: `zipfile` reading `word/document.xml` and
        `ET.fromstring` parsing it. */
  datatype Libraries = Libraries(
    pdfPages: seq<byte> -> LibOutcome<seq<LibOutcome<string>>>,
    docxParagraphs: seq<byte> -> LibOutcome<seq<string>>,
    documentXml: seq<byte> -> LibOutcome<XmlElement>)

  /** `root.iter()`: the element and all its descendants, in pre-order. */
  function PreOrder(e: XmlElement): (r: seq<XmlElement>)
    ensures |r| >= 1 && r[0] == e
    decreases e, 1
  {
    [e] + PreOrderAll(e.children)
  }

  function PreOrderAll(es: seq<XmlElement>): seq<XmlElement>
    decreases es, 0
  {
    if es == [] then [] else PreOrder(es[0]) + PreOrderAll(es[1..])
  }

  /** `e` is `root` or lies somewhere below it: the reference definition of
      the elements a walk of the tree must visit. */
  ghost predicate Contains(root: XmlElement, e: XmlElement)
    decreases root
  {
    root == e || exists i :: 0 <= i < |root.children| && Contains(root.children[i], e)
  }

  /** The pre-order walk visits exactly the elements of the tree. */
  lemma {:induction false} PreOrderVisitsTree(root: XmlElement, e: XmlElement)
    ensures e in PreOrder(root) <==> Contains(root, e)
    decreases root, 1
  {
    PreOrderAllVisitsForest(root.children, e);
  }

  lemma {:induction false} PreOrderAllVisitsForest(es: seq<XmlElement>, e: XmlElement)
    ensures e in PreOrderAll(es) <==> exists i :: 0 <= i < |es| && Contains(es[i], e)
    decreases es, 0
  {
    if es != [] {
      PreOrderVisitsTree(es[0], e);
      PreOrderAllVisitsForest(es[1..], e);
      if exists i :: 0 <= i < |es| && Contains(es[i], e) {
        var i :| 0 <= i < |es| && Contains(es[i], e);
        if i > 0 { assert Contains(es[1..][i - 1], e); }
      }
      if exists i :: 0 <= i < |es[1..]| && Contains(es[1..][i], e) {
        var i :| 0 <= i < |es[1..]| && Contains(es[1..][i], e);
        assert Contains(es[i + 1], e);
      }
    }
  }

  /** The part an element adds to the fallback's list: its `.text` when that
      is neither None nor empty (`if elem.text:`). */
  function TextPart(e: XmlElement): seq<string>
  {
    if e.text.Some? && e.text.value != "" then [e.text.value] else []
  }

  /** The non-empty texts of `es`, in order. */
  function NonEmptyTexts(es: seq<XmlElement>): seq<string>
  {
    if es == [] then [] else NonEmptyTexts(es[..|es| - 1]) + TextPart(es[|es| - 1])
  }

  /** A string is collected exactly when it is the non-empty text of one of
      the elements; nothing else is collected. */
  lemma {:induction false} NonEmptyTextsMembers(es: seq<XmlElement>, t: string)
    ensures t in NonEmptyTexts(es) <==> t != "" && exists i :: 0 <= i < |es| && es[i].text == Some(t)
  {
    if es != [] {
      var init := es[..|es| - 1];
      NonEmptyTextsMembers(init, t);
      if exists i :: 0 <= i < |init| && init[i].text == Some(t) {
        var i :| 0 <= i < |init| && init[i].text == Some(t);
        assert es[i].text == Some(t);
      }
      if exists i :: 0 <= i < |es| && es[i].text == Some(t) {
        var i :| 0 <= i < |es| && es[i].text == Some(t);
        if i < |init| { assert init[i].text == Some(t); }
      }
    }
  }

  /** The DOCX fallback collects the text of every text-bearing element of
      the document tree, and only those. */
  lemma FallbackCollectsEveryText(root: XmlElement, t: string)
    ensures t in NonEmptyTexts(PreOrder(root)) <==> t != "" && exists e :: Contains(root, e) && e.text == Some(t)
  {
    var es := PreOrder(root);
    NonEmptyTextsMembers(es, t);
    if t != "" && exists e :: Contains(root, e) && e.text == Some(t) {
      var e :| Contains(root, e) && e.text == Some(t);
      PreOrderVisitsTree(root, e);
      var i :| 0 <= i < |es| && es[i] == e;
    }
    if exists i :: 0 <= i < |es| && es[i].text == Some(t) {
      var i :| 0 <= i < |es| && es[i].text == Some(t);
      PreOrderVisitsTree(root, es[i]);
    }
  }

  /** The loop of `_extract_docx_fallback` (and of the fallback in app.py):
      walk `root.iter()` and append every non-empty `.text`. */
  method CollectElementTexts(root: XmlElement) returns (parts: seq<string>)
    ensures parts == NonEmptyTexts(PreOrder(root))
  {
    var elements := PreOrder(root);
    parts := [];
    var i := 0;
    while i < |elements|
      invariant 0 <= i <= |elements|
      invariant parts == NonEmptyTexts(elements[..i])
    {
      assert elements[..i + 1][..i] == elements[..i];
      var e := elements[i];
      if e.text.Some? && e.text.value != "" {
        parts := parts + [e.text.value];
      }
      i := i + 1;
    }
    assert elements[..i] == elements;
  }

  /** Running calls one after another until one raises: the values of all
      of them, or the first exception. */
  function Gather<T>(xs: seq<LibOutcome<T>>): LibOutcome<seq<T>>
  {
    if xs == [] then Produced([])
    else
      match xs[0]
      case Raised(m) => Raised(m)
      case Produced(v) =>
        match Gather(xs[1..])
        case Raised(m) => Raised(m)
        case Produced(vs) => Produced([v] + vs)
  }

  /** Gathering `a` and then `b`. */
  function Then<T>(a: LibOutcome<seq<T>>, b: LibOutcome<seq<T>>): LibOutcome<seq<T>>
  {
    match a
    case Raised(m) => Raised(m)
    case Produced(vs) =>
      match b
      case Raised(m) => Raised(m)
      case Produced(ws) => Produced(vs + ws)
  }

  lemma {:induction false} GatherAppend<T>(a: seq<LibOutcome<T>>, b: seq<LibOutcome<T>>)
    ensures Gather(a + b) == Then(Gather(a), Gather(b))
  {
    if a == [] {
      assert a + b == b;
      match Gather(b) {
        case Raised(m) =>
        case Produced(ws) => assert [] + ws == ws;
      }
    } else {
      assert (a + b)[0] == a[0] && (a + b)[1..] == a[1..] + b;
      GatherAppend(a[1..], b);
      if a[0].Produced? {
        match Gather(a[1..]) {
          case Raised(m) =>
          case Produced(vs) =>
            match Gather(b) {
              case Raised(m) =>
              case Produced(ws) => assert [a[0].value] + (vs + ws) == ([a[0].value] + vs) + ws;
            }
        }
      }
    }
  }

  /** `Gather` succeeds exactly when every call produced a value, and then
      holds those values, in order. */
  lemma {:induction false} GatherProduced<T>(xs: seq<LibOutcome<T>>)
    ensures Gather(xs).Produced? <==> forall i :: 0 <= i < |xs| ==> xs[i].Produced?
    ensures Gather(xs).Produced? ==>
              |Gather(xs).value| == |xs| && forall i :: 0 <= i < |xs| ==> Gather(xs).value[i] == xs[i].value
  {
    if xs != [] {
      GatherProduced(xs[1..]);
      if forall i :: 0 <= i < |xs| ==> xs[i].Produced? {
        assert forall i :: 0 <= i < |xs[1..]| ==> xs[1..][i].Produced?;
      }
      if Gather(xs).Produced? {
        forall i | 0 <= i < |xs| ensures xs[i].Produced? && Gather(xs).value[i] == xs[i].value {
          if i > 0 { assert xs[1..][i - 1] == xs[i]; }
        }
      }
    }
  }

  /** When `Gather` fails, it reports the exception of the first call that
      raised; every call before it produced a value. */
  lemma {:induction false} GatherRaisedFirst<T>(xs: seq<LibOutcome<T>>)
    requires Gather(xs).Raised?
    ensures exists i :: 0 <= i < |xs| && xs[i] == Raised(Gather(xs).reason)
                        && forall j :: 0 <= j < i ==> xs[j].Produced?
  {
    if xs[0].Produced? {
      GatherRaisedFirst(xs[1..]);
      var i :| 0 <= i < |xs[1..]| && xs[1..][i] == Raised(Gather(xs[1..]).reason)
                && forall j :: 0 <= j < i ==> xs[1..][j].Produced?;
      assert xs[i + 1] == Raised(Gather(xs).reason);
      forall j | 0 <= j < i + 1 ensures xs[j].Produced? {
        if j > 0 { assert xs[1..][j - 1] == xs[j]; }
      }
    } else {
      assert xs[0] == Raised(Gather(xs).reason);
    }
  }

  /** The page loop of `_extract_from_pdf` (and of `extract_text_from_pdf` in
      app.py): append each page's `extract_text()`, in page order; the first
      page that raises ends the loop with that exception. */
  method CollectPageTexts(pages: seq<LibOutcome<string>>) returns (r: LibOutcome<seq<string>>)
    ensures r == Gather(pages)
  {
    var parts: seq<string> := [];
    var i := 0;
    while i < |pages|
      invariant 0 <= i <= |pages|
      invariant Gather(pages[..i]) == Produced(parts)
    {
      GatherAppend(pages[..i], [pages[i]]);
      assert pages[..i] + [pages[i]] == pages[..i + 1];
      assert [pages[i]][1..] == [];
      match pages[i] {
        case Raised(reason) =>
          GatherAppend(pages[..i + 1], pages[i + 1..]);
          assert pages[..i + 1] + pages[i + 1..] == pages;
          return Raised(reason);
        case Produced(text) =>
          assert Gather([pages[i]]) == Produced([text] + []);
          assert [text] + [] == [text];
          parts := parts + [text];
      }
      i := i + 1;
    }
    assert pages[..i] == pages;
    r := Produced(parts);
  }

  /** What PDF extraction yields: the page texts in page order joined by
      "\n", or a 400 whose detail is `failPrefix` and the exception's text
      when opening the file or extracting any page raises. It succeeds
      exactly when the reader opens the file and every page yields its text,
      and it never fails with anything but a 400 carrying the prefix. */
  function PdfText(doc: LibOutcome<seq<LibOutcome<string>>>, failPrefix: string): (r: Outcome<string>)
    ensures r.Returned? <==> doc.Produced? && forall i :: 0 <= i < |doc.value| ==> doc.value[i].Produced?
    ensures !r.Returned? ==> r.Http? && r.error.status == 400 && StartsWith(r.error.detail, failPrefix)
  {
    match doc
    case Raised(reason) => Http(HttpError(400, failPrefix + reason))
    case Produced(pages) =>
      GatherProduced(pages);
      match Gather(pages)
      case Raised(reason) => Http(HttpError(400, failPrefix + reason))
      case Produced(texts) => Returned(Join(texts, "\n"))
  }

  /** When no page text holds a line break, the pages can be read back from
      the result by splitting on "\n": one segment per page, an empty page
      giving an empty segment. */
  lemma PdfTextMeaning(doc: LibOutcome<seq<LibOutcome<string>>>, failPrefix: string)
    ensures PdfText(doc, failPrefix).Returned? && |doc.value| >= 1
            && (forall i :: 0 <= i < |doc.value| ==> '\n' !in doc.value[i].value)
            ==> |Split(PdfText(doc, failPrefix).value, '\n')| == |doc.value|
                && forall i :: 0 <= i < |doc.value| ==>
                     Split(PdfText(doc, failPrefix).value, '\n')[i] == doc.value[i].value
  {
    if doc.Produced? {
      var pages := doc.value;
      GatherProduced(pages);
      if Gather(pages).Produced? {
        var texts := Gather(pages).value;
        if |pages| >= 1 && forall i :: 0 <= i < |pages| ==> '\n' !in pages[i].value {
          assert forall i :: 0 <= i < |texts| ==> '\n' !in texts[i];
          SplitJoin(texts, '\n');
        }
      }
    }
  }

  /** Whatever the page texts hold, line breaks included, each stands
      verbatim in the extracted text at its offset: the lengths of the pages
      before it, one "\n" after each. */
  lemma PdfPageAt(pages: seq<LibOutcome<string>>, failPrefix: string, i: nat)
    requires PdfText(Produced(pages), failPrefix).Returned?
    requires i < |pages|
    ensures Gather(pages).Produced? && |Gather(pages).value| == |pages| && pages[i].Produced?
    ensures OccursAt(PdfText(Produced(pages), failPrefix).value, pages[i].value,
                     Offset(Gather(pages).value, "\n", i))
  {
    GatherProduced(pages);
    JoinPartAt(Gather(pages).value, "\n", i);
  }

  /** What DOCX extraction yields: the paragraph texts joined by "\n" when
      python-docx reads the file; otherwise, when the XML fallback reads it,
      the non-empty element texts in pre-order joined by " "; otherwise a 400
      whose detail is `failPrefix` and the FALLBACK's exception text. The
      fallback is used only when the primary reader raises, and the error
      only when both raise. */
  function DocxText(paragraphs: LibOutcome<seq<string>>, xml: LibOutcome<XmlElement>, failPrefix: string): (r: Outcome<string>)
    ensures paragraphs.Produced? ==> r.Returned?
    ensures r.Http? <==> paragraphs.Raised? && xml.Raised?
    ensures r.Http? ==> r.error == HttpError(400, failPrefix + xml.reason)
    ensures !r.Fault?
  {
    match paragraphs
    case Produced(ps) => Returned(Join(ps, "\n"))
    case Raised(_) =>
      match xml
      case Produced(root) => Returned(Join(NonEmptyTexts(PreOrder(root)), " "))
      case Raised(reason) => Http(HttpError(400, failPrefix + reason))
  }

  /** With the primary reader the paragraphs can be read back by splitting
      on "\n" when none holds a line break. */
  lemma DocxTextMeaning(paragraphs: LibOutcome<seq<string>>, xml: LibOutcome<XmlElement>, failPrefix: string)
    ensures paragraphs.Produced? && |paragraphs.value| >= 1
            && (forall i :: 0 <= i < |paragraphs.value| ==> '\n' !in paragraphs.value[i])
            ==> Split(DocxText(paragraphs, xml, failPrefix).value, '\n') == paragraphs.value
  {
    if paragraphs.Produced? && |paragraphs.value| >= 1
       && (forall i :: 0 <= i < |paragraphs.value| ==> '\n' !in paragraphs.value[i]) {
      SplitJoin(paragraphs.value, '\n');
    }
  }

  /** `t` occurs in `s` as a contiguous piece. */
  ghost predicate IsInfix(t: string, s: string)
  {
    exists i: nat :: OccursAt(s, t, i)
  }

  /** When the DOCX fallback is used, the text of every text-bearing element
      of the document tree appears verbatim in the result. */
  lemma FallbackKeepsEveryElementText(paragraphs: LibOutcome<seq<string>>, root: XmlElement, failPrefix: string, e: XmlElement)
    requires paragraphs.Raised?
    requires Contains(root, e) && e.text.Some? && e.text.value != ""
    ensures IsInfix(e.text.value, DocxText(paragraphs, Produced(root), failPrefix).value)
  {
    var t := e.text.value;
    var parts := NonEmptyTexts(PreOrder(root));
    FallbackCollectsEveryText(root, t);
    var k :| 0 <= k < |parts| && parts[k] == t;
    JoinPartAt(parts, " ", k);
    assert OccursAt(Join(parts, " "), t, Offset(parts, " ", k));
  }
}
