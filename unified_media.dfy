/**
 * The file-backed media router's metadata endpoint and the normalisation of
 * the summary it returns. The storage folder is a listing of file names and
 * a map from media id to the transcript read from `<id>_transcript.json`
 * (a file that is missing or cannot be read is absent from the map).
 */
module UnifiedMedia {
  import opened Wrappers
  import opened Text
  import opened Transcripts

  // ---------------------------------------------------------------------------
  // Summary normalisation
  // ---------------------------------------------------------------------------

  /** A JSON value of the summary object. */
  datatype Json = JNull | JBool(b: bool) | JNum(n: int) | JStr(s: string) | JArr(items: seq<Json>) | JObj(fields: map<string, Json>)

  const Highlights: string := "highlights"
  const KeyHighlights: string := "key_highlights"
  const ActionPoints: string := "action_points"

  /** `d.setdefault(k, v)`: the key keeps its value if present, else gets v. */
  function SetDefault(d: map<string, Json>, k: string, v: Json): (r: map<string, Json>)
    ensures r.Keys == d.Keys + {k}
    ensures forall key :: key in d ==> r[key] == d[key]
    ensures k !in d ==> r[k] == v
  {
    if k in d then d else d[k := v]
  }

  /**
   * `if 'key_highlights' in data and 'highlights' not in data: data['highlights'] = data['key_highlights']`
   * followed by the two `setdefault` calls.
   */
  function Normalized(data: map<string, Json>): map<string, Json> {
    var copied := if KeyHighlights in data && Highlights !in data then data[Highlights := data[KeyHighlights]] else data;
    SetDefault(SetDefault(copied, Highlights, JArr([])), ActionPoints, JArr([]))
  }

  /**
   * Normalisation only adds the two keys and overwrites nothing: highlights
   * come from the summary, else from its key highlights, else are empty;
   * action points come from the summary, else are empty.
   */
  lemma NormalizedSpec(data: map<string, Json>)
    ensures var r := Normalized(data);
      && r.Keys == data.Keys + {Highlights, ActionPoints}
      && (forall k :: k in data ==> r[k] == data[k])
      && r[Highlights] == (if Highlights in data then data[Highlights] else if KeyHighlights in data then data[KeyHighlights] else JArr([]))
      && r[ActionPoints] == (if ActionPoints in data then data[ActionPoints] else JArr([]))
  {
  }

  /** Normalising a normalised summary changes nothing. */
  lemma NormalizedIdempotent(data: map<string, Json>)
    ensures Normalized(Normalized(data)) == Normalized(data)
  {
    NormalizedSpec(data);
    NormalizedSpec(Normalized(data));
  }

  /** The statements of `summarize_media` and `get_summary` that rewrite `data` in place. */
  method NormalizeSummary(data: map<string, Json>) returns (out: map<string, Json>)
    ensures out == Normalized(data)
  {
    out := data;
    if KeyHighlights in out && Highlights !in out {
      out := out[Highlights := out[KeyHighlights]];
    }
    if Highlights !in out {
      out := out[Highlights := JArr([])];
    }
    if ActionPoints !in out {
      out := out[ActionPoints := JArr([])];
    }
  }

  /** What `summarize_media` and `get_summary` answer. */
  datatype SummaryReply = Processing | Summary(data: map<string, Json>)

  /**
   * `get_summary`: 202 "processing" while no transcript file exists, else
   * the normalised summary produced by `summarize`.
   */
  function GetSummary(transcriptFiles: set<string>, media: string, summarize: string -> map<string, Json>): (r: SummaryReply)
    ensures r.Processing? <==> media !in transcriptFiles
    ensures r.Summary? ==> r.data == Normalized(summarize(media))
  {
    if media !in transcriptFiles then Processing else Summary(Normalized(summarize(media)))
  }

  const MediaIdRequired: string := "media_id required"

  /**
   * `summarize_media`: the id is `media_id`, else `id` (an empty value
   * counts as missing); a 400 without one, then as `get_summary`.
   */
  function SummarizeMedia(mediaId: Option<string>, id: Option<string>, transcriptFiles: set<string>,
                          summarize: string -> map<string, Json>): (r: Result<SummaryReply, HttpError>)
    ensures r.Err? <==> (mediaId.None? || mediaId.value == "") && (id.None? || id.value == "")
    ensures r.Err? ==> r.error.status == 400
    ensures r.Ok? ==>
      var m := if mediaId.Some? && mediaId.value != "" then mediaId.value else id.value;
      r.value == GetSummary(transcriptFiles, m, summarize)
  {
    if mediaId.Some? && mediaId.value != "" then Ok(GetSummary(transcriptFiles, mediaId.value, summarize))
    else if id.Some? && id.value != "" then Ok(GetSummary(transcriptFiles, id.value, summarize))
    else Err(HttpError(400, MediaIdRequired))
  }

  // ---------------------------------------------------------------------------
  // get_media_meta
  // ---------------------------------------------------------------------------

  /** A file matching `<id>.*` that is not a generated transcript or summary file. */
  predicate IsRawFile(media: string, name: string) {
    StartsWith(name, media + ".") && !EndsWith(name, "_transcript.json") && !EndsWith(name, "_summary.json")
  }

  /** `next((p for p in STORAGE.glob(...) if ...), None)`: the first raw file of the listing. */
  function FirstRaw(files: seq<string>, media: string): (r: Option<string>)
    ensures r.None? <==> forall i :: 0 <= i < |files| ==> !IsRawFile(media, files[i])
    ensures r.Some? ==> exists i :: 0 <= i < |files| && files[i] == r.value && IsRawFile(media, r.value)
                                   && forall j :: 0 <= j < i ==> !IsRawFile(media, files[j])
  {
    if files == [] then None
    else if IsRawFile(media, files[0]) then Some(files[0])
    else
      var rest := FirstRaw(files[1..], media);
      assert forall i :: 1 <= i < |files| ==> files[i] == files[1..][i - 1];
      rest
  }

  const SnippetMaxSegments: nat := 200
  const SnippetMaxChars: nat := 2000

  datatype MediaMeta = MediaMeta(id: string, filename: Option<string>, status: string, segments: nat,
                                 language: Option<string>, transcript: Option<string>)

  /** `' '.join(...)[:2000]`, only for 1 to 200 segments. */
  function Snippet(segs: seq<Segment>): (r: Option<string>)
    ensures r.Some? <==> 1 <= |segs| <= SnippetMaxSegments
    ensures r.Some? ==> r.value <= Join(" ", SegmentTexts(segs))
    ensures r.Some? ==> var joined := Join(" ", SegmentTexts(segs));
      |r.value| == if |joined| < SnippetMaxChars then |joined| else SnippetMaxChars
  {
    if 1 <= |segs| <= SnippetMaxSegments then Some(Take(Join(" ", SegmentTexts(segs)), SnippetMaxChars)) else None
  }

  const MediaNotFound: string := "Media not found"

  /** `get_media_meta`. */
  function GetMediaMeta(files: seq<string>, transcripts: map<string, Transcript>, media: string): Result<MediaMeta, HttpError> {
    var raw := FirstRaw(files, media);
    if raw.None? && media !in transcripts then Err(HttpError(404, MediaNotFound))
    else
      var segs := if media in transcripts then transcripts[media].segments else [];
      Ok(MediaMeta(media, raw, if media in transcripts then "done" else "processing", |segs|,
                   if media in transcripts then transcripts[media].language else None, Snippet(segs)))
  }

  /**
   * The metadata is a 404 only when neither a raw file nor a transcript
   * exists; the status is "done" exactly when the transcript was read; the
   * segment count and language are the transcript's (0 and None without
   * one); the snippet is the transcript's Snippet: it exists only for 1 to
   * 200 segments and is the first min(2000, n) characters of their texts
   * joined by spaces.
   */
  lemma GetMediaMetaSpec(files: seq<string>, transcripts: map<string, Transcript>, media: string)
    ensures var r := GetMediaMeta(files, transcripts, media);
      && (r.Err? <==> media !in transcripts && forall i :: 0 <= i < |files| ==> !IsRawFile(media, files[i]))
      && (r.Err? ==> r.error.status == 404)
      && (r.Ok? ==>
            && r.value.filename == FirstRaw(files, media)
            && (r.value.status == "done" <==> media in transcripts)
            && (media !in transcripts ==> r.value.segments == 0 && r.value.language.None? && r.value.transcript.None?)
            && (media in transcripts ==>
                  var t := transcripts[media];
                  && r.value.segments == |t.segments| && r.value.language == t.language
                  && (r.value.transcript.Some? <==> 1 <= |t.segments| <= 200)
                  && r.value.transcript == Snippet(t.segments)
                  && (r.value.transcript.Some? ==> |r.value.transcript.value| <= 2000
                                                   && r.value.transcript.value <= Join(" ", SegmentTexts(t.segments)))))
  {
  }
}
