/**
 * What one upstream attempt yields and how the service judges it: the
 * deserialised Invidious shapes (every property nullable, hence `Option`),
 * the audio-format choice of `GetStreamUrlAsync`, and the mapping of search
 * results to tracks in `SearchAsync`.
 *
 * HTTP and JSON are not modelled: a reply is either a failure of any kind
 * (non-success status, timeout, transport or parse error) or a parsed body,
 * which may itself be `null`.
 */
module Responses {
  import opened Common
  import opened Failover

  /** `InvidiousFormat`. */
  datatype Format = Format(
    formatType: Option<string>,
    url: Option<string>,
    bitrate: Option<int>,
    container: Option<string>)

  /** `InvidiousVideo`; the list and its elements may be `null`. */
  datatype Video = Video(
    title: Option<string>,
    videoId: Option<string>,
    adaptiveFormats: Option<seq<Option<Format>>>)

  /** `InvidiousThumbnail`. */
  datatype Thumbnail = Thumbnail(url: Option<string>, quality: Option<string>)

  /** `InvidiousSearchResult`. */
  datatype SearchResult = SearchResult(
    title: Option<string>,
    videoId: Option<string>,
    author: Option<string>,
    lengthSeconds: Option<int>,
    videoThumbnails: Option<seq<Option<Thumbnail>>>)

  /** `Track`, as the search builds it; `videoUrl` is never set there and stays empty. */
  datatype Track = Track(
    id: string,
    title: string,
    artist: string,
    duration: int,
    thumbnailUrl: string,
    videoUrl: string)

  /** The result of one HTTP call and its deserialisation. */
  datatype Reply<T> = Failed | Parsed(body: Option<T>)

  /** One attempt on one instance: its reply, its response time and the clock when it ended. */
  datatype Attempt<T> = Attempt(reply: Reply<T>, responseTime: real, at: int)

  /** `sub` occurs in `s` starting at position `i`. */
  predicate OccursAt(s: string, sub: string, i: int) {
    0 <= i <= |s| - |sub| && s[i..i + |sub|] == sub
  }

  /** The ordinal `string.Contains`: `sub` occurs somewhere in `s`. */
  predicate Contains(s: string, sub: string) {
    exists i :: 0 <= i <= |s| - |sub| && OccursAt(s, sub, i)
  }

  /** The filter `f.Type?.Contains("audio") == true`. */
  predicate IsAudio(f: Format) {
    f.formatType.Some? && Contains(f.formatType.value, "audio")
  }

  /** The sort key `f.Bitrate ?? 0`. */
  function Bitrate(f: Format): int {
    f.bitrate.GetOr(0)
  }

  /**
   * `k` is the entry `Where(audio).OrderByDescending(bitrate).FirstOrDefault()`
   * picks: an audio entry with the highest bitrate among the audio entries,
   * and (the sort being stable) the first such entry in list order.
   */
  ghost predicate IsBestAudio(fs: seq<Format>, k: int) {
    0 <= k < |fs| && IsAudio(fs[k]) &&
    (forall j :: 0 <= j < |fs| && IsAudio(fs[j]) ==> Bitrate(fs[j]) <= Bitrate(fs[k])) &&
    (forall j :: 0 <= j < k && IsAudio(fs[j]) ==> Bitrate(fs[j]) < Bitrate(fs[k]))
  }

  /**
   * The position of the chosen audio format: none exactly when no entry is
   * audio, otherwise the first audio entry of the highest bitrate.
   */
  function BestAudio(fs: seq<Format>): (r: Option<nat>)
    ensures r.None? <==> forall j :: 0 <= j < |fs| ==> !IsAudio(fs[j])
    ensures r.Some? ==> IsBestAudio(fs, r.value)
    decreases |fs|
  {
    if fs == [] then None
    else
      var k := |fs| - 1;
      var prev := BestAudio(fs[..k]);
      if !IsAudio(fs[k]) then prev
      else if prev.None? || Bitrate(fs[prev.value]) < Bitrate(fs[k]) then Some(k)
      else prev
  }

  /** At most one position is the chosen one. */
  lemma BestAudioUnique(fs: seq<Format>, k: int, k': int)
    requires IsBestAudio(fs, k) && IsBestAudio(fs, k')
    ensures k == k'
  {
  }

  /** The elements of `ofs` when none is `null`. */
  function AllPresent<T>(ofs: seq<Option<T>>): (r: Option<seq<T>>)
    ensures r.None? <==> exists i :: 0 <= i < |ofs| && ofs[i].None?
    ensures r.Some? ==> |r.value| == |ofs| && forall i :: 0 <= i < |ofs| ==> ofs[i] == Some(r.value[i])
    decreases |ofs|
  {
    if ofs == [] then Some([])
    else
      var k := |ofs| - 1;
      match (AllPresent(ofs[..k]), ofs[k])
      case (Some(init), Some(last)) => Some(init + [last])
      case _ => None
  }

  /**
   * The formats the stream lookup chooses from: the reply was parsed, the
   * video and its format list are not `null`, and no entry is `null` (the
   * audio filter dereferences every entry, so a `null` one throws).
   */
  function UsableFormats(reply: Reply<Video>): Option<seq<Format>> {
    if reply.Parsed? && reply.body.Some? && reply.body.value.adaptiveFormats.Some? then
      AllPresent(reply.body.value.adaptiveFormats.value)
    else None
  }

  /** The reply carries a stream URL at position `k`, the chosen audio format. */
  ghost predicate StreamableAt(reply: Reply<Video>, k: int) {
    UsableFormats(reply).Some? && IsBestAudio(UsableFormats(reply).value, k) &&
    UsableFormats(reply).value[k].url.Some?
  }

  /**
   * How `GetStreamUrlAsync` judges one reply: accepted exactly when the
   * chosen audio format has a URL, with that URL; every other path (failed
   * call, `null` video, `null` or empty format list, a `null` entry, no audio
   * entry, or a chosen entry without URL) is a failure. The stream lookup
   * never fails after recording a success.
   */
  function StreamVerdict(reply: Reply<Video>): (v: Verdict<string>)
    ensures !v.AcceptedThenFaulted?
    ensures v.Accepted? <==> exists k :: StreamableAt(reply, k)
    ensures forall k :: StreamableAt(reply, k) ==> v == Accepted(UsableFormats(reply).value[k].url.value)
  {
    if reply.Failed? || reply.body.None? then Rejected
    else
      var video := reply.body.value;
      if video.adaptiveFormats.None? || video.adaptiveFormats.value == [] then Rejected
      else
        match AllPresent(video.adaptiveFormats.value)
        case None => Rejected
        case Some(fs) =>
          match BestAudio(fs)
          case None => Rejected
          case Some(k) =>
            var url := fs[k].url;
            if url.None? then Rejected else
              assert StreamableAt(reply, k);
              StreamVerdictAccepts(reply, k);
              Accepted(url.value)
  }

  /** Helper for `StreamVerdict`: the chosen position is the only streamable one. */
  lemma StreamVerdictAccepts(reply: Reply<Video>, k: int)
    requires StreamableAt(reply, k)
    ensures forall k' :: StreamableAt(reply, k') ==> k' == k
  {
    forall k' | StreamableAt(reply, k') ensures k' == k {
      BestAudioUnique(UsableFormats(reply).value, k, k');
    }
  }

  /**
   * A missing URL on the chosen format rejects the reply even when a
   * lower-bitrate audio format does carry a URL: the lookup never falls back
   * to another format of the same video.
   */
  lemma NoFallbackToOtherFormat(a: Format, b: Format)
    requires IsAudio(a) && IsAudio(b) && Bitrate(a) > Bitrate(b)
    requires a.url.None? && b.url.Some?
    ensures StreamVerdict(Parsed(Some(Video(None, None, Some([Some(b), Some(a)]))))).Rejected?
  {
    var reply := Parsed(Some(Video(None, None, Some([Some(b), Some(a)]))));
    var fs := [b, a];
    var ofs := [Some(b), Some(a)];
    assert forall i :: 0 <= i < |ofs| ==> ofs[i].Some?;
    var r := AllPresent(ofs);
    assert |r.value| == 2 && r.value[0] == b && r.value[1] == a;
    assert r.value == fs;
    assert !exists k :: StreamableAt(reply, k);
  }

  /** `Take(limit)` keeps this many of `n` items: none for a limit of zero or below. */
  function TakeCount(limit: int, n: nat): (r: nat)
    ensures r <= n
    ensures limit <= 0 ==> r == 0
    ensures limit > 0 ==> r <= limit && (r == n || r == limit)
  {
    if limit <= 0 then 0 else if limit < n then limit else n
  }

  /** `v.VideoThumbnails?.FirstOrDefault()?.Url ?? ""`. */
  function ThumbnailUrl(r: SearchResult): string {
    match r.videoThumbnails
    case None => ""
    case Some(ts) => if ts == [] then "" else if ts[0].None? then "" else ts[0].value.url.GetOr("")
  }

  /** The projection of one search result to a track; a missing field becomes `""` or `0`. */
  function ToTrack(r: SearchResult): Track {
    Track(r.videoId.GetOr(""), r.title.GetOr(""), r.author.GetOr(""), r.lengthSeconds.GetOr(0),
          ThumbnailUrl(r), "")
  }

  /**
   * How `SearchAsync` judges one reply: a failed call, a `null` body or an
   * empty list is a failure; otherwise success is recorded before the results
   * are projected, and a `null` item among the first `limit` makes the
   * projection throw, which the catch block records as a failure as well.
   * Otherwise the answer is the first `limit` results, in order, projected.
   */
  function SearchVerdict(reply: Reply<seq<Option<SearchResult>>>, limit: int): (v: Verdict<seq<Track>>)
    ensures v.Rejected? <==> reply.Failed? || reply.body.None? || reply.body.value == []
    ensures v.AcceptedThenFaulted? <==>
              reply.Parsed? && reply.body.Some? && reply.body.value != [] &&
              exists i :: 0 <= i < TakeCount(limit, |reply.body.value|) && reply.body.value[i].None?
    ensures v.Accepted? ==>
              var items := reply.body.value;
              |v.value| == TakeCount(limit, |items|) &&
              forall i :: 0 <= i < |v.value| ==> items[i].Some? && v.value[i] == ToTrack(items[i].value)
  {
    if reply.Failed? || reply.body.None? || reply.body.value == [] then Rejected
    else
      var items := reply.body.value;
      match AllPresent(items[..TakeCount(limit, |items|)])
      case None => AcceptedThenFaulted
      case Some(taken) => Accepted(seq(|taken|, i requires 0 <= i < |taken| => ToTrack(taken[i])))
  }

  /** The default number of search results. */
  const DefaultLimit: int := 20

  /**
   * Results past the limit are never looked at: a `null` item after the
   * first `limit` does not turn an accepted search into a faulted one.
   */
  lemma ItemsPastLimitIgnored(items: seq<Option<SearchResult>>, limit: int, extra: seq<Option<SearchResult>>)
    requires 0 <= limit <= |items| && items != []
    ensures SearchVerdict(Parsed(Some(items + extra)), limit) == SearchVerdict(Parsed(Some(items)), limit)
  {
    var all := items + extra;
    assert TakeCount(limit, |all|) == TakeCount(limit, |items|) == limit;
    assert all[..limit] == items[..limit];
  }
}
