/**
 * The `Episode` record of common.py and its construction from the episode
 * object that the media server lists under a podcast's `media.episodes`.
 */
module EpisodeRecord {

  /** `audioFile.metaTags` of an episode object. */
  datatype MetaTags = MetaTags(tagAlbum: string)

  /** `audioFile` of an episode object; `duration` is in seconds. */
  datatype AudioFile = AudioFile(duration: real, metaTags: MetaTags)

  /**
   * The fields of a server-side episode object that the client reads.
   * `publishedAt` is the publication time in milliseconds since the epoch.
   */
  datatype EpisodeJson = EpisodeJson(
    id: string,
    libraryItemId: string,
    title: string,
    publishedAt: int,
    audioFile: AudioFile)

  /** A catalogue episode; `publishTs` is the publication time in seconds. */
  datatype Episode = Episode(
    id: string,
    libraryId: string,
    podcast: string,
    name: string,
    duration: real,
    publishTs: real)

  /**
   * `Episode.from_json`: identifiers, album tag, title and duration are
   * copied as they are, and the millisecond time becomes seconds.
   */
  function FromJson(json: EpisodeJson): (e: Episode)
    ensures e.id == json.id && e.libraryId == json.libraryItemId
    ensures e.podcast == json.audioFile.metaTags.tagAlbum && e.name == json.title
    ensures e.duration == json.audioFile.duration
    ensures e.publishTs * 1000.0 == json.publishedAt as real
  {
    Episode(
      id := json.id,
      libraryId := json.libraryItemId,
      podcast := json.audioFile.metaTags.tagAlbum,
      name := json.title,
      duration := json.audioFile.duration,
      publishTs := json.publishedAt as real / 1000.0)
  }

  /** Converting milliseconds to seconds neither reorders nor merges publication times. */
  lemma {:induction false} PublishTsKeepsOrder(a: EpisodeJson, b: EpisodeJson)
    ensures FromJson(a).publishTs <= FromJson(b).publishTs <==> a.publishedAt <= b.publishedAt
    ensures FromJson(a).publishTs == FromJson(b).publishTs <==> a.publishedAt == b.publishedAt
  {
  }

}
