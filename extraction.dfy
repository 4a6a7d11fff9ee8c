/**
 * What the video-information extractor hands back to the request handler.
 * The extractor itself (a foreign library doing network I/O) is not modelled;
 * its outcome for a given page URL is an input of the handler.
 */
module Extraction {
  import opened PythonValues

  /** One entry of the info dictionary's `formats` list. */
  datatype Format = Format(formatId: Field<Scalar>, url: Field<string>)

  /** The keys of the info dictionary that the handler reads. */
  datatype Info = Info(formats: Field<seq<Format>>, url: Field<string>, title: Field<string>)

  /**
   * How one extraction call ends: with an info dictionary, with the library's
   * own download error, or with any other exception. Each error carries the
   * exception's text, `str(e)`.
   */
  datatype Outcome =
    | Extracted(info: Info)
    | DownloadError(reason: string)
    | OtherException(reason: string)
}
