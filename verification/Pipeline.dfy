/** The decision part of one delivery: hash re-check, download, extract, classify. */
module Pipeline {
  import opened Base
  import opened Protocol

  type Bytes = seq<bv8>

  datatype Extracted = Text(text: string) | NoExtractor(error: string) | Unreadable(error: string)

  /** What the outside world answers to one delivery's calls. */
  datatype Io = Io(
    fetched: Result<Option<string>, string>,
    downloaded: Result<Bytes, string>,
    extract: (Bytes, string) -> Extracted,
    classify: string -> Result<Classification, string>)

  /** `_run_pipeline` up to the point where its outcome is recorded. */
  function Judge(msg: Message, io: Io): Outcome {
    match io.fetched
    case Err(e) => Failure(e)
    case Ok(current) =>
      if current != Some(msg.contentHash) then Skip(HASH_MISMATCH)
      else
        match io.downloaded
        case Err(e) => Failure(e)
        case Ok(data) =>
          match io.extract(data, msg.mimeType)
          case NoExtractor(e) => Skip("unsupported mime type " + msg.mimeType + ": " + e)
          case Unreadable(e) => Failure(e)
          case Text(text) =>
            match io.classify(text)
            case Err(e) => Failure(e)
            case Ok(c) => Verdict(c)
  }
}
