/** Context assembly: the retrieved chunks' page contents joined in rank
    order with a blank line between them (`format_docs`, chatbot.py:325-326). */
module Context {
  import opened Text

  /** A knowledge-base chunk as the retriever hands it over: its text and
      the metadata recorded when the index was built (unused by the core). */
  datatype Document = Document(pageContent: string, metadata: map<string, string>)

  /** The separator `format_docs` puts between chunks. */
  const Separator: string := "\n\n"

  /** The page contents of `docs`, in order. */
  function Contents(docs: seq<Document>): (r: seq<string>)
    ensures |r| == |docs|
    ensures forall k :: 0 <= k < |docs| ==> r[k] == docs[k].pageContent
  {
    seq(|docs|, k requires 0 <= k < |docs| => docs[k].pageContent)
  }

  /** `format_docs(docs)`: no documents give the empty string, one document
      gives its content unchanged, and n documents give a string whose length
      is the total content length plus two characters per gap. */
  function FormatDocs(docs: seq<Document>): (r: string)
    ensures docs == [] ==> r == ""
    ensures |docs| == 1 ==> r == docs[0].pageContent
    ensures |docs| > 0 ==> |r| == TotalLength(Contents(docs)) + 2 * (|docs| - 1)
  {
    Join(Separator, Contents(docs))
  }

  /** Document `k`'s content sits verbatim in the context, after the contents
      of the documents ranked before it and before those ranked after it, with
      one separator on each inner side. */
  lemma FormatDocsPlacesDocument(docs: seq<Document>, k: nat)
    requires k < |docs|
    ensures FormatDocs(docs) ==
      (if k == 0 then "" else FormatDocs(docs[..k]) + Separator) + docs[k].pageContent +
      (if k + 1 == |docs| then "" else Separator + FormatDocs(docs[k + 1..]))
  {
    JoinPlacesPart(Separator, Contents(docs), k);
    assert Contents(docs)[..k] == Contents(docs[..k]);
    assert Contents(docs)[k + 1..] == Contents(docs[k + 1..]);
  }

  /** Retrieving one more chunk extends the context by a separator and that
      chunk's content, leaving what was there unchanged. */
  lemma FormatDocsAppend(docs: seq<Document>, d: Document)
    requires docs != []
    ensures FormatDocs(docs + [d]) == FormatDocs(docs) + Separator + d.pageContent
  {
    var all := docs + [d];
    FormatDocsPlacesDocument(all, |docs|);
    assert all[..|docs|] == docs;
  }
}
