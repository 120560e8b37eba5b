/**
 * The database-backed media router: the retrieval of its chat handler, its
 * SRT export, the analytics word count and the chunked upload. A media row
 * is a MediaRecord in a map from id to row; the chunk files on disk are the
 * fields of a ChunkStore.
 */
module MediaApi {
  import opened Wrappers
  import opened Text
  import opened Transcripts
  import opened Retrieval
  import opened Replies
  import opened Chat
  import opened Export

  /**
   * A media row. `transcript` is the transcript column (None: NULL);
   * `segments` is the decoded `segments_json` column (None: NULL, empty or
   * not decodable).
   */
  datatype MediaRecord = MediaRecord(transcript: Option<string>, segments: Option<seq<Segment>>)

  /** `media and media.transcript`: the row exists and its transcript is non-empty. */
  predicate Ready(db: map<nat, MediaRecord>, id: nat) {
    id in db && db[id].transcript.Some? && db[id].transcript.value != ""
  }

  const TranscriptNotReady: string := "Transcript not ready"
  const NotFound: string := "Not found"

  // ---------------------------------------------------------------------------
  // chat
  // ---------------------------------------------------------------------------

  /** The stored segments, the top eight by score, with no fallback to the leading ones. */
  function Selected(rec: MediaRecord, message: string): seq<Segment> {
    if rec.segments.Some? then Top(rec.segments.value, message, 8, 0) else []
  }

  /**
   * Without stored segments nothing is selected; with them, the selection
   * is empty exactly when no segment scores, and otherwise is the best
   * min(8, scoring) segments in descending score order.
   */
  lemma SelectedSpec(rec: MediaRecord, message: string)
    ensures rec.segments.None? ==> Selected(rec, message) == []
    ensures rec.segments.Some? ==>
      var segs := rec.segments.value; var terms := Terms(message); var top := Selected(rec, message);
      && (top == [] <==> forall s :: s in segs ==> Score(s.text, terms) == 0)
      && (forall i :: 0 <= i < |top| ==> top[i] in segs && Score(top[i].text, terms) > 0)
      && (forall i, j :: 0 <= i < j < |top| ==> Score(top[i].text, terms) >= Score(top[j].text, terms))
      && |top| <= 8
  {
    if rec.segments.Some? {
      var segs := rec.segments.value;
      var terms := Terms(message);
      if forall s :: s in segs ==> Score(s.text, terms) == 0 {
        TopFallback(segs, message, 8, 0);
      } else {
        TopSelection(segs, message, 8, 0);
      }
    }
  }

  const ApiChatPreamble: string := "You are an assistant answering a question about an audio/video transcript. Use only the provided context segments. Cite timestamps in brackets."

  /** The prompt, whose context is the selected segments' lines or, when there are none, the first 4000 characters of the transcript. */
  function ApiChatPrompt(message: string, context: string, transcript: string): string {
    ApiChatPreamble + "\nQuestion: " + message + "\nContext Segments:\n"
    + (if context != "" then context else Take(transcript, 4000)) + "\nAnswer:"
  }

  /** The rendered context is empty exactly when no segment was selected. */
  lemma ContextEmptyIffNone(top: seq<Segment>, fmt1: nat -> string)
    requires Context(top, fmt1).Some?
    ensures Context(top, fmt1).value == "" <==> top == []
  {
    var lines := ContextLines(top, fmt1).value;
    assert Context(top, fmt1).value == Join("\n", lines);
    if top != [] {
      assert Some(lines[0]) == ContextLine(top[0], fmt1);
      assert lines[0][0] == '[';
      assert Join("\n", lines)[0] == lines[0][0];
    }
  }

  datatype ChatResponse = ChatResponse(answer: string, refs: seq<Segment>)

  /** Why `chat` answers with an error: a rejected request, or an exception. */
  datatype ChatFailure = Rejected(error: HttpError) | Raised(cause: Failure)

  /** The model call on the prompt, once the context is rendered. */
  function ApiAnswer(rec: MediaRecord, message: string, top: seq<Segment>, context: string,
                     complete: string -> Option<string>): Result<ChatResponse, ChatFailure>
    requires rec.transcript.Some?
  {
    match complete(ApiChatPrompt(message, context, rec.transcript.value))
    case None => Err(Raised(ModelCallFailed))
    case Some(answer) => Ok(ChatResponse(answer, Take(top, 5)))
  }

  /** `chat` of the media router. */
  function ApiChat(db: map<nat, MediaRecord>, id: nat, message: string,
                   complete: string -> Option<string>, fmt1: nat -> string): Result<ChatResponse, ChatFailure>
  {
    if !Ready(db, id) then Err(Rejected(HttpError(400, TranscriptNotReady)))
    else
      var top := Selected(db[id], message);
      match Context(top, fmt1)
      case None => Err(Raised(TimestampNotNumeric))
      case Some(context) => ApiAnswer(db[id], message, top, context, complete)
  }

  /**
   * A row that is missing or has no transcript is a 400; a selected segment
   * without a time makes the formatting raise; otherwise the answer is the
   * model's reply to a prompt carrying the selected segments, or the
   * transcript's first 4000 characters when none was selected, and the
   * references are the first five selected segments.
   */
  lemma ApiChatSpec(db: map<nat, MediaRecord>, id: nat, message: string,
                    complete: string -> Option<string>, fmt1: nat -> string)
    ensures var r := ApiChat(db, id, message, complete, fmt1);
      && (!Ready(db, id) ==> r.Err? && r.error.Rejected? && r.error.error.status == 400 && r.error.error.detail == TranscriptNotReady)
      && (Ready(db, id) ==>
            var top := Selected(db[id], message);
            && (r.Err? && r.error == Raised(TimestampNotNumeric) <==> exists i :: 0 <= i < |top| && (top[i].start.None? || top[i].end.None?))
            && (r.Ok? ==> r.value.refs == Take(top, 5) && |r.value.refs| <= 5)
            && (r.Ok? && top == [] ==> Some(r.value.answer) == complete(ApiChatPrompt(message, "", db[id].transcript.value)))
            && (r.Ok? && top != [] ==>
                  Some(r.value.answer) == complete(ApiChatPrompt(message, Context(top, fmt1).value, db[id].transcript.value))
                  && Context(top, fmt1).value != ""))
  {
    if Ready(db, id) {
      var rec := db[id];
      var top := Selected(rec, message);
      var c := Context(top, fmt1);
      ContextMissingTime(top, fmt1);
      if c.Some? {
        ContextEmptyIffNone(top, fmt1);
        assert ApiChat(db, id, message, complete, fmt1) == ApiAnswer(rec, message, top, c.value, complete);
      }
    }
  }

  /** The handler, with the scoring loop. */
  method ChatHandler(db: map<nat, MediaRecord>, id: nat, message: string,
                     complete: string -> Option<string>, fmt1: nat -> string) returns (r: Result<ChatResponse, ChatFailure>)
    ensures r == ApiChat(db, id, message, complete, fmt1)
  {
    if !Ready(db, id) {
      return Err(Rejected(HttpError(400, TranscriptNotReady)));
    }
    var rec := db[id];
    var top: seq<Segment> := [];
    if rec.segments.Some? {
      top := Retrieve(rec.segments.value, message, 8, 0);
    }
    var context := Context(top, fmt1);
    if context.None? {
      return Err(Raised(TimestampNotNumeric));
    }
    var answer := complete(ApiChatPrompt(message, context.value, rec.transcript.value));
    if answer.None? {
      return Err(Raised(ModelCallFailed));
    }
    r := Ok(ChatResponse(answer.value, Take(top, 5)));
  }

  // ---------------------------------------------------------------------------
  // export_srt
  // ---------------------------------------------------------------------------

  /** `"\n".join(lines) if lines else media.transcript`, the blocks ending at `seg.get('end', 0)`. */
  function ApiSrtContent(transcript: string, segs: seq<Segment>): string {
    var lines := Blocks(segs, DatabaseRouterBlock);
    if lines != [] then Join("\n", lines) else transcript
  }

  /**
   * Without segments the export is the raw transcript; with them, lines 4i
   * to 4i+3 are segment i's number (from 1), its stamps (the end defaulting
   * to 0), its stripped text and a blank line.
   */
  lemma ApiSrtContentSpec(transcript: string, segs: seq<Segment>)
    ensures segs == [] ==> ApiSrtContent(transcript, segs) == transcript
    ensures segs != [] ==> ApiSrtContent(transcript, segs) == Join("\n", Blocks(segs, DatabaseRouterBlock))
    ensures |Blocks(segs, DatabaseRouterBlock)| == 4 * |segs|
    ensures forall i :: 0 <= i < |segs| ==>
      Blocks(segs, DatabaseRouterBlock)[4 * i .. 4 * i + 4]
        == [NatToString(i + 1), SrtTime(StartOrZero(segs[i])) + " --> " + SrtTime(EndOrZero(segs[i])), Strip(segs[i].text), ""]
  {
    RouterBlocksSpec(segs);
  }

  /** `export_srt` of the media router: 404 unless the row has a transcript. */
  method ApiExportSrt(db: map<nat, MediaRecord>, id: nat) returns (r: Result<string, HttpError>)
    ensures !Ready(db, id) ==> r == Err(HttpError(404, TranscriptNotFound))
    ensures Ready(db, id) ==>
      r == Ok(ApiSrtContent(db[id].transcript.value, if db[id].segments.Some? then db[id].segments.value else []))
  {
    if !Ready(db, id) {
      return Err(HttpError(404, TranscriptNotFound));
    }
    var rec := db[id];
    var segs := if rec.segments.Some? then rec.segments.value else [];
    var lines := BuildSrtLines(segs, DatabaseRouterBlock);
    var content := if lines != [] then Join("\n", lines) else rec.transcript.value;
    r := Ok(content);
  }

  // ---------------------------------------------------------------------------
  // analytics
  // ---------------------------------------------------------------------------

  /** `len((media.transcript or '').split()) if media.transcript else 0` */
  function WordCount(transcript: Option<string>): nat {
    if transcript.Some? && transcript.value != "" then |Words(transcript.value)| else 0
  }

  /** The guard changes nothing: the count is the number of whitespace tokens, zero exactly for a missing or blank transcript. */
  lemma WordCountSpec(transcript: Option<string>)
    ensures WordCount(transcript) == |Words(if transcript.Some? then transcript.value else "")|
    ensures WordCount(transcript) == 0 <==> transcript.None? || IsBlank(transcript.value)
  {
    if transcript.Some? {
      WordsEmptyIffBlank(transcript.value);
    }
    WordsEmptyIffBlank("");
  }

  /** `analytics`: 404 for a missing row, else the word count. */
  function Analytics(db: map<nat, MediaRecord>, id: nat): (r: Result<nat, HttpError>)
    ensures id !in db <==> r.Err?
    ensures r.Err? ==> r.error.status == 404
    ensures r.Ok? ==> r.value == |Words(if db[id].transcript.Some? then db[id].transcript.value else "")|
  {
    if id !in db then Err(HttpError(404, NotFound))
    else
      WordCountSpec(db[id].transcript);
      Ok(WordCount(db[id].transcript))
  }

  // ---------------------------------------------------------------------------
  // upload_chunk
  // ---------------------------------------------------------------------------

  /** The bytes written to the assembled file, and whether every part 0..n-1 could be read. */
  datatype Assembly = Assembly(bytes: seq<bv8>, complete: bool)

  /**
   * `for i in range(n): out.write(open(f"{i}.part").read())`: the parts
   * in index order, stopping at the first missing part, whose `open` raises.
   */
  function Assemble(parts: map<int, seq<bv8>>, n: nat): Assembly {
    if n == 0 then Assembly([], true)
    else
      var prev := Assemble(parts, n - 1);
      if prev.complete && n - 1 in parts then Assembly(prev.bytes + parts[n - 1], true)
      else Assembly(prev.bytes, false)
  }

  /** The assembly is complete exactly when parts 0..n-1 all exist. */
  lemma {:induction false} AssembleCompleteIff(parts: map<int, seq<bv8>>, n: nat)
    ensures Assemble(parts, n).complete <==> forall i :: 0 <= i < n ==> i in parts
  {
    if n > 0 {
      AssembleCompleteIff(parts, n - 1);
    }
  }

  /** One more present part is appended to the output. */
  lemma AssembleStep(parts: map<int, seq<bv8>>, i: nat)
    requires forall k :: 0 <= k <= i ==> k in parts
    ensures Assemble(parts, i + 1).bytes == Assemble(parts, i).bytes + parts[i]
  {
    AssembleCompleteIff(parts, i);
  }

  /** The bytes written for the first i parts are a prefix of those written for the first n. */
  lemma {:induction false} AssemblePrefix(parts: map<int, seq<bv8>>, i: nat, n: nat)
    requires i <= n
    ensures Assemble(parts, i).bytes <= Assemble(parts, n).bytes
  {
    if i < n {
      AssemblePrefix(parts, i, n - 1);
    }
  }

  lemma PrefixSlice(a: seq<bv8>, p: seq<bv8>, b: seq<bv8>)
    requires a + p <= b
    ensures |a| + |p| <= |b| && b[|a| .. |a| + |p|] == p
  {
    assert b[..|a| + |p|] == a + p;
    assert (a + p)[|a|..] == p;
  }

  /**
   * In index order: with parts 0..n-1 present, part i follows directly the
   * bytes of parts 0..i-1 in the assembled output.
   */
  lemma AssembleLayout(parts: map<int, seq<bv8>>, i: nat, n: nat)
    requires i < n && forall k :: 0 <= k < n ==> k in parts
    ensures var before := |Assemble(parts, i).bytes|; var bytes := Assemble(parts, n).bytes;
      before + |parts[i]| <= |bytes| && bytes[before .. before + |parts[i]|] == parts[i]
  {
    AssembleStep(parts, i);
    AssemblePrefix(parts, i + 1, n);
    PrefixSlice(Assemble(parts, i).bytes, parts[i], Assemble(parts, n).bytes);
  }

  /** `{"received", "assembled", "upload_id", "final_path"}` */
  datatype ChunkReceipt = ChunkReceipt(received: int, assembled: bool, uploadId: string, finalPath: Option<string>)

  /** `os.path.join('uploads', f"{upload_id}.bin")` */
  function AssembledPath(uploadId: string): string {
    "uploads/" + uploadId + ".bin"
  }

  /** The chunk directories and the assembled files of the upload folder. */
  class ChunkStore {
    /** `uploads/chunks/<upload_id>/<i>.part` */
    var chunks: map<string, map<int, seq<bv8>>>
    /** `uploads/<name>` */
    var files: map<string, seq<bv8>>

    constructor ()
      ensures chunks == map[] && files == map[]
    {
      chunks := map[];
      files := map[];
    }

    /** The parts stored for an upload (`os.makedirs(temp_dir, exist_ok=True)` starts an empty one). */
    function Parts(uploadId: string): (p: map<int, seq<bv8>>)
      reads this
      ensures uploadId !in chunks ==> p == map[]
      ensures uploadId in chunks ==> p == chunks[uploadId]
    {
      if uploadId in chunks then chunks[uploadId] else map[]
    }

    /**
     * `upload_chunk`: the chunk is stored as part `index`, replacing an
     * earlier part of that index. When the directory then holds exactly
     * `total` parts, they are written in index order to the assembled file
     * and the directory is removed; if one of parts 0..total-1 is missing
     * the file keeps what was written before it, the directory stays and
     * the request raises.
     */
    method UploadChunk(chunk: seq<bv8>, index: int, total: int, uploadId: string) returns (r: Result<ChunkReceipt, HttpError>)
      modifies this
      ensures var stored := old(Parts(uploadId))[index := chunk];
        && (|stored.Keys| != total ==>
              && chunks == old(chunks)[uploadId := stored] && files == old(files)
              && r == Ok(ChunkReceipt(index, false, uploadId, None)))
        && (|stored.Keys| == total ==>
              var a := Assemble(stored, total);
              && files == old(files)[AssembledPath(uploadId) := a.bytes]
              && (a.complete ==> chunks == old(chunks) - {uploadId} && r == Ok(ChunkReceipt(index, true, uploadId, Some(AssembledPath(uploadId)))))
              && (!a.complete ==> chunks == old(chunks)[uploadId := stored] && r.Err? && r.error.status == 500))
    {
      var stored := Parts(uploadId)[index := chunk];
      chunks := chunks[uploadId := stored];
      if |stored.Keys| != total {
        return Ok(ChunkReceipt(index, false, uploadId, None));
      }
      var path := AssembledPath(uploadId);
      var complete := WriteAssembled(stored, total, path);
      if !complete {
        return Err(HttpError(500, "Internal Server Error"));
      }
      chunks := chunks - {uploadId};
      r := Ok(ChunkReceipt(index, true, uploadId, Some(path)));
    }

    /**
     * The loop that writes parts 0..n-1 to `path` in index order, stopping
     * with false at the first missing part.
     */
    method WriteAssembled(parts: map<int, seq<bv8>>, n: nat, path: string) returns (complete: bool)
      modifies this
      ensures files == old(files)[path := Assemble(parts, n).bytes]
      ensures complete == Assemble(parts, n).complete
      ensures chunks == old(chunks)
    {
      var out: seq<bv8> := [];
      files := files[path := out];
      var i := 0;
      while i < n
        invariant 0 <= i <= n
        invariant Assemble(parts, i) == Assembly(out, true)
        invariant chunks == old(chunks)
        invariant files == old(files)[path := out]
      {
        if i !in parts {
          AssembleStops(parts, i, n);
          return false;
        }
        out := out + parts[i];
        files := files[path := out];
        i := i + 1;
      }
      complete := true;
    }
  }

  /** Once a part is missing, the later parts add nothing. */
  lemma {:induction false} AssembleStops(parts: map<int, seq<bv8>>, m: nat, n: nat)
    requires m < n && m !in parts && Assemble(parts, m).complete
    ensures Assemble(parts, n) == Assembly(Assemble(parts, m).bytes, false)
  {
    if n > m + 1 {
      AssembleStops(parts, m, n - 1);
    }
  }
}
