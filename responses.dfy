/** The JSON bodies and HTTP codes the endpoints answer with. */
module Responses {
  import opened Wrappers

  const OK: nat := 200
  const BAD_REQUEST: nat := 400
  const NOT_FOUND: nat := 404
  const INTERNAL_SERVER_ERROR: nat := 500
  const SERVICE_UNAVAILABLE: nat := 503

  /** The server status under which requests are served. */
  const ACTIVE := "ACTIVE"

  /** The only format identifier the handler looks for (itag 18). */
  const PREFERRED_FORMAT := "18"

  /** Title reported when the info dictionary has no `title` key. */
  const UNKNOWN_TITLE := "不明な動画"

  const HEALTHY_MESSAGE := "サーバーは正常に稼働しています。"
  const MAINTENANCE_MESSAGE := "現在、サーバーはメンテナンス中のため、サービスを利用できません。"
  const UNAVAILABLE_MESSAGE := "サーバーが現在利用できません。/healthを確認してください。"
  const MISSING_URL_MESSAGE := "動画のURLが指定されていません。"
  const NO_STREAM_MESSAGE := "ストリームリンクが見つかりませんでした。動画IDを確認してください。"
  const SUCCESS_MESSAGE := "動画ストリームリンクを取得しました。このリンクをcurlで使用できます。"
  const DOWNLOAD_ERROR_PREFIX := "動画情報の取得中にエラーが発生しました: "
  const SERVER_ERROR_PREFIX := "サーバーエラー: "

  /** `str(e)` of the TypeError raised by iterating over `None`. */
  const NONE_NOT_ITERABLE := "'NoneType' object is not iterable"

  /**
   * A JSON body. `title` and `streamLink` are `None` where the JSON value is
   * `null`. The health body's timestamp is not modelled.
   */
  datatype Body =
    | Healthy(message: string)
    | Success(title: Option<string>, streamLink: Option<string>, message: string)
    | Error(message: string)
  {
    /** The body's `"status"` field. */
    function Status(): string
    {
      match this
      case Healthy(_) => "ok"
      case Success(_, _, _) => "success"
      case Error(_) => "error"
    }
  }

  datatype Reply = Reply(body: Body, code: nat)
}
