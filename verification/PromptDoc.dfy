/** `read_google_doc` (voicy_functions.py): the text of the summarisation
    prompt, flattened from the structure the Docs service returns. */
module PromptDoc {
  import opened Basics

  /** A `textRun`; its `content` key may be missing. */
  datatype TextRun = TextRun(content: Option<string>)

  /** A paragraph element; only those carrying a (non-empty) `textRun` count. */
  datatype ParagraphElement = ParagraphElement(textRun: Option<TextRun>)

  /** A paragraph; a missing `elements` key is an empty list. */
  datatype Paragraph = Paragraph(elements: seq<ParagraphElement>)

  /** A structural element of the body: a paragraph, or something else
      (a table, a section break, ...) which has no `paragraph` key. */
  datatype StructuralElement = StructuralElement(paragraph: Option<Paragraph>)

  /** The body; a missing `content` key is an empty list. */
  datatype Body = Body(content: seq<StructuralElement>)

  /** The fetched document; its `body` key may be missing. */
  datatype Document = Document(body: Option<Body>)

  /** The text a paragraph element contributes. */
  function ElementText(e: ParagraphElement): string {
    if e.textRun.Some? then e.textRun.value.content.GetOr("") else ""
  }

  /** The text runs of a paragraph, concatenated in order. */
  function ParagraphText(elements: seq<ParagraphElement>): string {
    if elements == [] then ""
    else ParagraphText(elements[..|elements| - 1]) + ElementText(elements[|elements| - 1])
  }

  /** The text a structural element contributes: that of its paragraph;
      elements that are not paragraphs contribute nothing. */
  function ParagraphOf(e: StructuralElement): string {
    if e.paragraph.Some? then ParagraphText(e.paragraph.value.elements) else ""
  }

  /** The text of the paragraphs of the body, concatenated in order. */
  function ContentText(content: seq<StructuralElement>): string {
    if content == [] then ""
    else ContentText(content[..|content| - 1]) + ParagraphOf(content[|content| - 1])
  }

  function DocText(d: Document): string {
    if d.body.Some? then ContentText(d.body.value.content) else ""
  }

  /** `read_google_doc`, given the document the service returned, or `None`
      when fetching it raised: the text (possibly empty) on success, `None`
      on an error. */
  method ReadGoogleDoc(fetched: Option<Document>) returns (r: Option<string>)
    ensures fetched.None? ==> r.None?
    ensures fetched.Some? ==> r == Some(DocText(fetched.value))
  {
    if fetched.None? {
      return None;
    }
    var document := fetched.value;
    var content := "";
    if document.body.Some? {
      var docContent := document.body.value.content;
      for i := 0 to |docContent|
        invariant content == ContentText(docContent[..i])
      {
        ContentTextStep(docContent, i);
        var element := docContent[i];
        if element.paragraph.Some? {
          content := AppendParagraph(content, element.paragraph.value.elements);
        } else {
          assert content + "" == content;
        }
      }
      assert docContent[..|docContent|] == docContent;
    }
    return Some(content);
  }

  /** The inner loop of `read_google_doc`: the content of every text run of
      one paragraph is appended to the text read so far. */
  method AppendParagraph(before: string, elements: seq<ParagraphElement>) returns (content: string)
    ensures content == before + ParagraphText(elements)
  {
    content := before;
    for j := 0 to |elements|
      invariant content == before + ParagraphText(elements[..j])
    {
      ParagraphTextStep(before, elements, j);
      var paragraphElement := elements[j];
      if paragraphElement.textRun.Some? {
        content := content + paragraphElement.textRun.value.content.GetOr("");
      } else {
        assert content + "" == content;
      }
    }
    assert elements[..|elements|] == elements;
  }

  lemma ParagraphTextStep(before: string, elements: seq<ParagraphElement>, j: nat)
    requires j < |elements|
    ensures before + ParagraphText(elements[..j + 1]) == (before + ParagraphText(elements[..j])) + ElementText(elements[j])
  {
    assert elements[..j + 1][..j] == elements[..j];
    SeqAssoc(before, ParagraphText(elements[..j]), ElementText(elements[j]));
  }

  lemma ContentTextStep(content: seq<StructuralElement>, i: nat)
    requires i < |content|
    ensures ContentText(content[..i + 1]) == ContentText(content[..i]) + ParagraphOf(content[i])
  {
    assert content[..i + 1][..i] == content[..i];
  }


  lemma ContentTextSnoc(content: seq<StructuralElement>, e: StructuralElement)
    ensures ContentText(content + [e]) == ContentText(content) + ParagraphOf(e)
  {
    assert (content + [e])[..|content|] == content;
  }

  lemma ParagraphTextSnoc(elements: seq<ParagraphElement>, e: ParagraphElement)
    ensures ParagraphText(elements + [e]) == ParagraphText(elements) + ElementText(e)
  {
    assert (elements + [e])[..|elements|] == elements;
  }

  /** The text of a body split in two is the text of the first part followed
      by that of the second. */
  lemma {:induction false} ContentTextAppend(a: seq<StructuralElement>, b: seq<StructuralElement>)
    ensures ContentText(a + b) == ContentText(a) + ContentText(b)
    decreases |b|
  {
    if b == [] {
      assert a + b == a;
    } else {
      var b' := b[..|b| - 1];
      var last := b[|b| - 1];
      assert b == b' + [last];
      assert a + b == (a + b') + [last];
      ContentTextAppend(a, b');
      ContentTextSnoc(a + b', last);
      ContentTextSnoc(b', last);
      SeqAssoc(ContentText(a), ContentText(b'), ParagraphOf(last));
    }
  }

  /** Likewise for the elements of one paragraph. */
  lemma {:induction false} ParagraphTextAppend(a: seq<ParagraphElement>, b: seq<ParagraphElement>)
    ensures ParagraphText(a + b) == ParagraphText(a) + ParagraphText(b)
    decreases |b|
  {
    if b == [] {
      assert a + b == a;
    } else {
      var b' := b[..|b| - 1];
      var last := b[|b| - 1];
      assert b == b' + [last];
      assert a + b == (a + b') + [last];
      ParagraphTextAppend(a, b');
      ParagraphTextSnoc(a + b', last);
      ParagraphTextSnoc(b', last);
      SeqAssoc(ParagraphText(a), ParagraphText(b'), ElementText(last));
    }
  }

  /** Inserting an element that is not a paragraph anywhere in the body does
      not change the text. */
  lemma NonParagraphIgnored(a: seq<StructuralElement>, e: StructuralElement, b: seq<StructuralElement>)
    requires e.paragraph.None?
    ensures ContentText(a + [e] + b) == ContentText(a + b)
  {
    ContentTextAppend(a + [e], b);
    ContentTextAppend(a, b);
    assert (a + [e])[..|a|] == a;
  }

  /** Paragraph elements without a text run, and text runs without content,
      contribute nothing. */
  lemma EmptyElementsIgnored(a: seq<ParagraphElement>, e: ParagraphElement, b: seq<ParagraphElement>)
    requires e.textRun.None? || e.textRun.value.content.None?
    ensures ParagraphText(a + [e] + b) == ParagraphText(a + b)
  {
    ParagraphTextAppend(a + [e], b);
    ParagraphTextAppend(a, b);
    assert (a + [e])[..|a|] == a;
  }

  /** A document with a single paragraph of text runs reads as their contents, in order. */
  lemma OneParagraph(runs: seq<ParagraphElement>)
    ensures DocText(Document(Some(Body([StructuralElement(Some(Paragraph(runs)))])))) == ParagraphText(runs)
  {
    var c := [StructuralElement(Some(Paragraph(runs)))];
    assert c[..0] == [];
    assert ContentText(c) == "" + ParagraphText(runs);
    assert "" + ParagraphText(runs) == ParagraphText(runs);
  }
}
