/** The pure part of the `/generate-narration` handler: request validation,
    collection of the audio fragments from the synthesis stream, and their
    ordered concatenation. The synthesis backend is a parameter returning the
    stream of response items, or failing. */
module Narration {
  import opened Results
  import opened Bytes

  /** The JSON body's two fields; `None` when the key is absent or null. */
  datatype NarrationRequest = NarrationRequest(text: Option<string>, voiceId: Option<string>)

  /** `inline_data` of a response part: the audio bytes, possibly `None`. */
  datatype Blob = Blob(data: Option<bytes>)

  datatype Part = Part(inlineData: Option<Blob>)

  datatype Content = Content(parts: Option<seq<Part>>)

  datatype Candidate = Candidate(content: Option<Content>)

  /** One item of `generate_content_stream`. */
  datatype StreamItem = StreamItem(candidates: Option<seq<Candidate>>)

  /** A failure raised by the backend call or while iterating its stream. */
  datatype BackendFault = BackendFault

  /** The synthesis service: the text and voice in, the whole stream out. */
  type Backend = (string, string) -> Result<seq<StreamItem>, BackendFault>

  /** A call made to the synthesis service. */
  datatype BackendCall = BackendCall(text: string, voiceId: string)

  datatype ErrorKind = MissingField | NoAudioData | ServerError

  /** The handler's JSON reply: `{"audioContent": ...}` with status 200 (the
      bytes before base64 encoding), or `{"error": ...}` with a status. */
  datatype Reply = Audio(content: bytes) | Error(status: nat, kind: ErrorKind)

  /** The reply together with the calls made to the backend while producing it. */
  datatype Outcome = Outcome(reply: Reply, calls: seq<BackendCall>)

  /** Python truthiness of a string field: present and non-empty. */
  predicate Given(field: Option<string>)
  {
    field.Some? && |field.value| > 0
  }

  // ---------------------------------------------------------------------
  // Fragment collection

  /** What one stream item contributes to the loop over the stream. */
  datatype Step = Skip | Append(data: bytes) | Raise

  /** The loop body for one item: skip an item with no candidates, content or
      parts; index the first candidate and the first part (an empty list
      raises `IndexError`); keep the part's inline data when it is non-empty. */
  function ItemStep(item: StreamItem): Step
  {
    match item.candidates
    case None => Skip
    case Some(cands) =>
      if |cands| == 0 then Raise
      else match cands[0].content
        case None => Skip
        case Some(content) =>
          match content.parts
          case None => Skip
          case Some(parts) =>
            if |parts| == 0 then Raise
            else match parts[0].inlineData
              case None => Skip
              case Some(blob) =>
                match blob.data
                case None => Skip
                case Some(d) => if |d| == 0 then Skip else Append(d)
  }

  /** The `audio_chunks` list after the loop over `items`, or `None` when
      an item raised (which the handler turns into a 500). */
  function Collect(items: seq<StreamItem>): (r: Option<seq<bytes>>)
    ensures r.None? <==> exists i :: 0 <= i < |items| && ItemStep(items[i]).Raise?
    ensures r.Some? ==> |r.value| <= |items|
    ensures r.Some? ==> forall k :: 0 <= k < |r.value| ==> |r.value[k]| > 0
    decreases |items|
  {
    if |items| == 0 then Some([])
    else
      var init := items[..|items| - 1];
      var last := items[|items| - 1];
      assert forall i :: 0 <= i < |init| ==> init[i] == items[i];
      match Collect(init)
      case None => None
      case Some(chunks) =>
        match ItemStep(last)
        case Raise => None
        case Skip => Some(chunks)
        case Append(d) => Some(chunks + [d])
  }

  /** Collection is compositional: the fragments of a concatenated stream are
      those of its first part followed by those of its second, so their order
      is the stream's order. */
  lemma {:induction false} CollectAppend(xs: seq<StreamItem>, ys: seq<StreamItem>)
    ensures Collect(xs + ys).Some? <==> Collect(xs).Some? && Collect(ys).Some?
    ensures Collect(xs + ys).Some? ==> Collect(xs + ys).value == Collect(xs).value + Collect(ys).value
    decreases |ys|
  {
    if |ys| == 0 {
      assert xs + ys == xs;
    } else {
      var ys' := ys[..|ys| - 1];
      assert (xs + ys)[..|xs + ys| - 1] == xs + ys';
      assert (xs + ys)[|xs + ys| - 1] == ys[|ys| - 1];
      CollectAppend(xs, ys');
      if Collect(xs + ys).Some? {
        var a, b := Collect(xs).value, Collect(ys').value;
        match ItemStep(ys[|ys| - 1])
        case Skip =>
        case Raise =>
        case Append(d) =>
          assert (a + b) + [d] == a + (b + [d]);
      }
    }
  }

  /** A single item contributes exactly its step: nothing, its data, or an error. */
  lemma CollectOne(item: StreamItem)
    ensures ItemStep(item).Skip? ==> Collect([item]) == Some([])
    ensures ItemStep(item).Append? ==> Collect([item]) == Some([ItemStep(item).data])
    ensures ItemStep(item).Raise? ==> Collect([item]).None?
  {
    assert [item][..0] == [];
    assert Collect([]) == Some([]);
    if ItemStep(item).Append? {
      var d := ItemStep(item).data;
      assert [] + [d] == [d];
    }
  }

  /** `b"".join(chunks)`. */
  function JoinAll(chunks: seq<bytes>): (r: bytes)
    ensures |r| == 0 <==> forall k :: 0 <= k < |chunks| ==> |chunks[k]| == 0
    decreases |chunks|
  {
    if |chunks| == 0 then []
    else
      var init := chunks[..|chunks| - 1];
      assert forall k :: 0 <= k < |init| ==> init[k] == chunks[k];
      JoinAll(init) + chunks[|chunks| - 1]
  }

  /** A single fragment is joined to itself, byte for byte. */
  lemma JoinAllOne(chunk: bytes)
    ensures JoinAll([chunk]) == chunk
  {
    assert [chunk][..0] == [];
    assert [] + chunk == chunk;
  }

  /** Joining is compositional, so each fragment's bytes appear unchanged and
      in order in the joined audio. */
  lemma {:induction false} JoinAllAppend(a: seq<bytes>, b: seq<bytes>)
    ensures JoinAll(a + b) == JoinAll(a) + JoinAll(b)
    decreases |b|
  {
    if |b| == 0 {
      assert a + b == a;
    } else {
      var b' := b[..|b| - 1];
      assert (a + b)[..|a + b| - 1] == a + b';
      JoinAllAppend(a, b');
    }
  }

  // ---------------------------------------------------------------------
  // The handler

  /** `generate_narration`: a request missing either field gets a 400 and the
      backend is not called; otherwise the backend is called once with the
      text and voice, a failure or a raising item gives a 500, a stream with
      no audio fragment gives a 500, and otherwise the reply carries the
      fragments joined in order. */
  function GenerateNarration(req: NarrationRequest, backend: Backend): (o: Outcome)
    ensures o.reply == Error(400, MissingField) <==> !Given(req.text) || !Given(req.voiceId)
    ensures !Given(req.text) || !Given(req.voiceId) ==> o.calls == []
    ensures Given(req.text) && Given(req.voiceId) ==>
              o.calls == [BackendCall(req.text.value, req.voiceId.value)]
    ensures o.reply.Error? ==> o.reply.status in {400, 500}
    ensures o.reply.Audio? ==> |o.reply.content| > 0
    ensures o.reply.Audio? ==>
              var items := backend(req.text.value, req.voiceId.value);
              items.Ok? && Collect(items.value).Some? && o.reply.content == JoinAll(Collect(items.value).value)
    ensures Given(req.text) && Given(req.voiceId) ==>
              var items := backend(req.text.value, req.voiceId.value);
              items.Ok? && Collect(items.value).Some? && |Collect(items.value).value| > 0 ==>
                o.reply == Audio(JoinAll(Collect(items.value).value))
    ensures o.reply == Error(500, NoAudioData) <==>
              && Given(req.text) && Given(req.voiceId)
              && var items := backend(req.text.value, req.voiceId.value);
                 items.Ok? && Collect(items.value) == Some([])
    ensures o.reply == Error(500, ServerError) <==>
              && Given(req.text) && Given(req.voiceId)
              && var items := backend(req.text.value, req.voiceId.value);
                 items.Err? || Collect(items.value).None?
  {
    if !Given(req.text) || !Given(req.voiceId) then
      Outcome(Error(400, MissingField), [])
    else
      var text, voice := req.text.value, req.voiceId.value;
      var calls := [BackendCall(text, voice)];
      match backend(text, voice)
      case Err(_) => Outcome(Error(500, ServerError), calls)
      case Ok(items) =>
        match Collect(items)
        case None => Outcome(Error(500, ServerError), calls)
        case Some(chunks) =>
          if |chunks| == 0 then Outcome(Error(500, NoAudioData), calls)
          else
            assert |chunks[0]| > 0;
            Outcome(Audio(JoinAll(chunks)), calls)
  }
}
