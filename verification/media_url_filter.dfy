/** `MediaUrlFilter`: the response stream that holds back the page until it has seen `</html>`,
    then has the whole buffered text parsed, rewritten and rendered, and writes the result to the
    stream beneath it. Payloads are text (the UTF-8 decoding is not modelled); parsing, the
    document pass and rendering together are the partial function `render`, None standing for an
    exception. */
module MediaUrlFilter {
  import opened Outcomes
  import opened Text

  /** The end-of-document marker, as the cut searches for it. */
  const Marker := "</html>"

  /** `_sb`, `_isComplete`, and the writes made so far to the stream beneath, in order. */
  datatype Filter = Filter(buffer: string, isComplete: bool, downstream: seq<string>)

  /** A new filter: nothing buffered, nothing written. */
  function Init(): (f: Filter)
    ensures f.buffer == "" && !f.isComplete && f.downstream == []
  {
    Filter("", false, [])
  }

  /** `new Regex("</html>", RegexOptions.IgnoreCase).IsMatch(payload)`. */
  predicate HasMarker(payload: string) {
    Contains(ToLower(payload), Marker)
  }

  /** The test finds `</html>` anywhere in the payload, whatever the case of its letters. */
  lemma MarkerAnywhere(payload: string)
    ensures HasMarker(payload) <==> exists i :: OccursAt(ToLower(payload), Marker, i)
  {
  }

  /** A payload that holds the marker in any case is at least as long as the marker. */
  lemma MarkerLength(payload: string)
    requires HasMarker(payload)
    ensures |payload| >= |Marker|
  {
    var i := IndexOf(ToLower(payload), Marker);
    assert OccursAt(ToLower(payload), Marker, i);
  }

  /** An exact lower-case occurrence is also found by the case-insensitive test. */
  lemma ExactMarkerIsFound(payload: string)
    requires IndexOf(payload, Marker) != -1
    ensures HasMarker(payload)
  {
    var i := IndexOf(payload, Marker);
    assert OccursAt(payload, Marker, i);
    ToLowerSlice(payload, i, i + |Marker|);
    assert ToLower(Marker) == Marker;
    assert OccursAt(ToLower(payload), Marker, i);
  }

  /** `content.Substring(0, content.IndexOf("</html>") + 7)`: the payload up to and including
      the first lower-case marker, or its first six characters when the marker appears only in
      another case (the search is case-sensitive, so it returns -1). */
  function MarkerCut(payload: string): (r: string)
    requires HasMarker(payload)
    ensures r <= payload
    ensures IndexOf(payload, Marker) != -1 ==>
              && EndsWith(r, Marker)
              && IndexOf(r, Marker) == |r| - |Marker|
    ensures IndexOf(payload, Marker) == -1 ==> |r| == 6
  {
    MarkerLength(payload);
    var i := IndexOf(payload, Marker);
    if i == -1 then payload[..6]
    else
      IndexOfInPrefix(payload, Marker, i + 7);
      var r := payload[..i + 7];
      assert OccursAt(r, Marker, i);
      assert r[|r| - |Marker|..] == r[i..i + |Marker|];
      r
  }

  /** `Write(buffer, offset, count)` with the payload decoded to `payload`. */
  function Write(f: Filter, payload: string, render: string -> Option<string>): (r: Filter)
    // no marker, still buffering: the payload is appended and nothing goes downstream
    ensures !HasMarker(payload) && !f.isComplete ==> r == f.(buffer := f.buffer + payload)
    // no marker, already complete: the payload goes downstream verbatim, the buffer stays
    ensures !HasMarker(payload) && f.isComplete ==> r == f.(downstream := f.downstream + [payload])
    // marker: only the text through the marker is buffered, and the whole buffer is rendered
    ensures HasMarker(payload) ==> r.buffer == f.buffer + MarkerCut(payload)
    ensures HasMarker(payload) && render(r.buffer).Some? ==>
              r.isComplete && r.downstream == f.downstream + [render(r.buffer).value]
    ensures HasMarker(payload) && render(r.buffer).None? ==>
              r.isComplete == f.isComplete && r.downstream == f.downstream
  {
    if !HasMarker(payload) then
      if f.isComplete then f.(downstream := f.downstream + [payload])
      else f.(buffer := f.buffer + payload)
    else
      var buffer := f.buffer + MarkerCut(payload);
      match render(buffer)
      case Some(html) => Filter(buffer, true, f.downstream + [html])
      case None => f.(buffer := buffer)
  }

  /** `Flush()`: when the document was not completed, the buffer goes downstream verbatim (and
      stays buffered); otherwise nothing is written. */
  function Flush(f: Filter): (r: Filter)
    ensures r.buffer == f.buffer && r.isComplete == f.isComplete
    ensures !f.isComplete ==> r.downstream == f.downstream + [f.buffer]
    ensures f.isComplete ==> r.downstream == f.downstream
  {
    if !f.isComplete then f.(downstream := f.downstream + [f.buffer]) else f
  }

  /** `Close()` only closes the stream beneath: a buffer still held back is not written. */
  function Close(f: Filter): (r: Filter)
    ensures r.downstream == f.downstream
  {
    f
  }

  /** Several writes in order. */
  function WriteAll(f: Filter, payloads: seq<string>, render: string -> Option<string>): Filter
    decreases |payloads|
  {
    if |payloads| == 0 then f
    else WriteAll(Write(f, payloads[0], render), payloads[1..], render)
  }

  /** The payloads joined end to end. */
  function Concat(payloads: seq<string>): string
    decreases |payloads|
  {
    if |payloads| == 0 then "" else payloads[0] + Concat(payloads[1..])
  }

  /** Before the marker, writes only accumulate: the buffer is the old buffer followed by all the
      payloads and nothing reaches the stream beneath. */
  lemma {:induction false} BufferingAccumulates(f: Filter, payloads: seq<string>, render: string -> Option<string>)
    requires !f.isComplete
    requires forall i :: 0 <= i < |payloads| ==> !HasMarker(payloads[i])
    ensures WriteAll(f, payloads, render) == f.(buffer := f.buffer + Concat(payloads))
    decreases |payloads|
  {
    if |payloads| > 0 {
      var next := Write(f, payloads[0], render);
      assert next == f.(buffer := f.buffer + payloads[0]);
      assert forall i :: 0 <= i < |payloads| - 1 ==> payloads[1..][i] == payloads[i + 1];
      BufferingAccumulates(next, payloads[1..], render);
      assert f.buffer + payloads[0] + Concat(payloads[1..]) == f.buffer + Concat(payloads);
    }
  }

  /** A page that never closes reaches the stream beneath only through `Flush`, as one verbatim
      copy of everything written; `Close` alone writes nothing. */
  lemma UnclosedPageFlushedVerbatim(payloads: seq<string>, render: string -> Option<string>)
    requires forall i :: 0 <= i < |payloads| ==> !HasMarker(payloads[i])
    ensures var f := WriteAll(Init(), payloads, render);
            && f.downstream == []
            && Flush(f).downstream == [Concat(payloads)]
            && Close(f).downstream == []
  {
    var f := WriteAll(Init(), payloads, render);
    BufferingAccumulates(Init(), payloads, render);
    assert "" + Concat(payloads) == Concat(payloads);
    assert f == Filter(Concat(payloads), false, []);
  }

  /** After completion, writes without the marker pass straight through, in order. */
  lemma {:induction false} CompletePassesThrough(f: Filter, payloads: seq<string>, render: string -> Option<string>)
    requires f.isComplete
    requires forall i :: 0 <= i < |payloads| ==> !HasMarker(payloads[i])
    ensures WriteAll(f, payloads, render) == f.(downstream := f.downstream + payloads)
    decreases |payloads|
  {
    if |payloads| > 0 {
      var next := Write(f, payloads[0], render);
      assert forall i :: 0 <= i < |payloads| - 1 ==> payloads[1..][i] == payloads[i + 1];
      CompletePassesThrough(next, payloads[1..], render);
      assert f.downstream + [payloads[0]] + payloads[1..] == f.downstream + payloads;
    }
  }

  /** The isComplete flag does not guard the marker branch: a later payload with the marker, after
      the page was already written, appends to the whole old buffer and renders all of it again,
      so a second document goes downstream. */
  lemma MarkerAfterCompletionRerenders(f: Filter, payload: string, render: string -> Option<string>)
    requires f.isComplete
    requires HasMarker(payload)
    requires render(f.buffer + MarkerCut(payload)).Some?
    ensures var r := Write(f, payload, render);
            && r.buffer == f.buffer + MarkerCut(payload)
            && |r.downstream| == |f.downstream| + 1
            && r.downstream[|f.downstream|] == render(f.buffer + MarkerCut(payload)).value
  {
  }

  /** A failed render keeps the text: the flag stays unset, and a following `Flush` writes the
      buffer, marker included, verbatim. */
  lemma FailedRenderFlushesVerbatim(f: Filter, payload: string, render: string -> Option<string>)
    requires !f.isComplete
    requires HasMarker(payload)
    requires render(f.buffer + MarkerCut(payload)).None?
    ensures var r := Flush(Write(f, payload, render));
            && !r.isComplete
            && r.downstream == f.downstream + [f.buffer + MarkerCut(payload)]
  {
  }

  /** The text after the first lower-case marker in the same payload reaches nobody: it is not
      buffered, and the only thing written is the rendering of the buffer. */
  lemma TailAfterMarkerDropped(f: Filter, payload: string, render: string -> Option<string>)
    requires HasMarker(payload)
    requires IndexOf(payload, Marker) != -1
    ensures var r := Write(f, payload, render);
            var end := IndexOf(payload, Marker) + |Marker|;
            && r.buffer == f.buffer + payload[..end]
            && (r.downstream == f.downstream || r.downstream == f.downstream + [render(r.buffer).value])
  {
  }

  /** Flushing twice before completion writes the buffer twice. */
  lemma FlushRepeatsBuffer(f: Filter)
    requires !f.isComplete
    ensures Flush(Flush(f)).downstream == f.downstream + [f.buffer, f.buffer]
  {
  }

  /** A marker written only in upper case is recognised, but the case-sensitive cut finds
      nothing and keeps the first six characters: `</HTML>` is buffered as `</HTML`. */
  lemma UpperCaseMarkerCut(f: Filter, render: string -> Option<string>)
    ensures Write(f, "</HTML>", render).buffer == f.buffer + "</HTML"
  {
    var p := "</HTML>";
    assert OccursAt(ToLower(p), Marker, 0);
    assert p[0..7][2] != Marker[2];
    assert forall i :: 0 < i ==> !OccursAt(p, Marker, i);
    assert IndexOf(p, Marker) == -1;
  }

  /** Two writes of page text and a third that is the closing tag produce exactly one downstream
      write, the rendered page; any later marker-free write passes straight through. */
  lemma PageScenario(head: string, body: string, extra: string, render: string -> Option<string>, page: string)
    requires !HasMarker(head) && !HasMarker(body) && !HasMarker(extra)
    requires render(head + body + Marker) == Some(page)
    ensures var f := WriteAll(Init(), [head, body, Marker], render);
            && f.isComplete
            && f.downstream == [page]
            && Write(f, extra, render).downstream == [page, extra]
  {
    var ps := [head, body, Marker];
    var f2 := Filter(head + body, false, []);
    assert ps[..2] == [head, body] && ps[..2][1..] == [body];
    assert Concat([body]) == body + Concat([]);
    BufferingAccumulates(Init(), ps[..2], render);
    assert Concat(ps[..2]) == head + body;
    assert WriteAll(Init(), ps[..2], render) == f2;
    ClosingTagCut();
    var f3 := Write(f2, Marker, render);
    assert f3 == Filter(head + body + Marker, true, [page]);
    WriteAllSplit(Init(), ps, 2, render);
    assert ps[2..] == [Marker];
    assert WriteAll(f2, [Marker], render) == WriteAll(f3, [], render);
  }

  /** Writing a sequence is writing its first part, then the rest. */
  lemma {:induction false} WriteAllSplit(f: Filter, payloads: seq<string>, k: nat, render: string -> Option<string>)
    requires k <= |payloads|
    ensures WriteAll(f, payloads, render) == WriteAll(WriteAll(f, payloads[..k], render), payloads[k..], render)
    decreases k
  {
    if k > 0 {
      WriteAllSplit(Write(f, payloads[0], render), payloads[1..], k - 1, render);
      assert payloads[1..][..k - 1] == payloads[..k][1..];
      assert payloads[1..][k - 1..] == payloads[k..];
    }
  }

  /** A payload that is exactly the marker is cut to itself. */
  lemma ClosingTagCut()
    ensures HasMarker(Marker) && MarkerCut(Marker) == Marker
  {
    assert OccursAt(Marker, Marker, 0);
    ExactMarkerIsFound(Marker);
  }
}
