// The remote chat API as the rest of the server sees it: a per-bot-token
// client whose calls reach a remote service, and the cache that hands out
// one client per token.
module Telegram {
  import opened Wrappers

  /** What a call asks the remote service for. */
  datatype Request =
    | SendDocumentRequest(botToken: string, chatId: string, fileName: string)
    | GetFileRequest(botToken: string, fileId: string)
    | DeleteMessageRequest(botToken: string, chatId: string, messageId: int)

  /** The `result` object of a reply: a sent message with the metadata of
    * whichever of document, video or audio it carries, or a file path. */
  datatype ReplyResult =
    | SentMessage(messageId: int, document: Option<string>, video: Option<string>, audio: Option<string>)
    | FileInfo(filePath: string)
    | NoResult

  /** A reply the client reads, or the exception the HTTP call threw: no
    * reply, or one whose HTTP status the client rejects. */
  datatype Reply = NetworkError(message: string) | Response(ok: bool, description: string, result: ReplyResult)

  datatype UploadResult = UploadResult(messageId: int, fileId: string)

  /** A user's bot token and chat id, as the auth middleware hands them on. */
  datatype Credentials = Credentials(botToken: string, chatId: string)

  const UploadFailedPrefix := "Telegram upload failed: "
  const NoMetadataMessage := "Telegram upload succeeded but no file metadata found in response"
  const GetFileFailedPrefix := "Telegram getFile failed: "
  /** The runtime's TypeErrors when an ok reply has no `result` object. */
  const NoResultUploadMessage := "Cannot destructure property 'message_id' of 'response.data.result' as it is undefined."
  const NoResultLinkMessage := "Cannot read properties of undefined (reading 'file_path')"
  const FileUrlPrefix := "https://api.telegram.org/file/bot"

  /** `document || video || audio`, then its `file_id`. */
  function Metadata(r: ReplyResult): Option<string>
  {
    match r
    case SentMessage(_, d, v, a) => if d.Some? then d else if v.Some? then v else a
    case _ => None
  }

  /** How `uploadFile` reads a reply: an exception on a transport error, on
    * `ok: false`, on an ok reply without `result` (destructuring undefined)
    * and on a result without file metadata; otherwise the message id and the
    * file id of the first metadata present. */
  function ReadUpload(reply: Reply): (r: Result<UploadResult, string>)
    ensures reply.NetworkError? ==> r == Err(reply.message)
    ensures reply.Response? && !reply.ok ==> r == Err(UploadFailedPrefix + reply.description)
    ensures reply.Response? && reply.ok && reply.result.NoResult? ==> r == Err(NoResultUploadMessage)
    ensures reply.Response? && reply.ok && !reply.result.NoResult? && Metadata(reply.result).None? ==>
      r == Err(NoMetadataMessage)
    ensures r.Ok? <==> reply.Response? && reply.ok && Metadata(reply.result).Some?
    ensures r.Ok? ==> r.value.fileId == Metadata(reply.result).value && r.value.messageId == reply.result.messageId
  {
    match reply
    case NetworkError(m) => Err(m)
    case Response(ok, description, result) =>
      if !ok then Err(UploadFailedPrefix + description)
      else if result.NoResult? then Err(NoResultUploadMessage)
      else match Metadata(result)
        case None => Err(NoMetadataMessage)
        case Some(fileId) => Ok(UploadResult(result.messageId, fileId))
  }

  /** How `getFileLink` reads a reply: an exception on a transport error, on
    * `ok: false` and on an ok reply without `result`; otherwise the download
    * URL built from the token and `file_path`, which reads as "undefined"
    * when the result holds none. */
  function ReadLink(botToken: string, reply: Reply): (r: Result<string, string>)
    ensures r.Ok? <==> reply.Response? && reply.ok && !reply.result.NoResult?
    ensures reply.NetworkError? ==> r == Err(reply.message)
    ensures reply.Response? && !reply.ok ==> r == Err(GetFileFailedPrefix + reply.description)
    ensures reply.Response? && reply.ok && reply.result.NoResult? ==> r == Err(NoResultLinkMessage)
    ensures r.Ok? && reply.result.FileInfo? ==> r.value == FileUrlPrefix + botToken + "/" + reply.result.filePath
  {
    match reply
    case NetworkError(m) => Err(m)
    case Response(ok, description, result) =>
      if !ok then Err(GetFileFailedPrefix + description)
      else if result.NoResult? then Err(NoResultLinkMessage)
      else Ok(FileUrlPrefix + botToken + "/" + (if result.FileInfo? then result.filePath else "undefined"))
  }

  /** How `deleteMessage` reads a reply: the `ok` flag, and false instead of
    * an exception. */
  function ReadDelete(reply: Reply): (b: bool)
    ensures b <==> reply.Response? && reply.ok
  {
    reply.Response? && reply.ok
  }

  /** The remote service: its replies are given by `respond`, which sees the
    * position of the request among all requests made; `requests` records them. */
  class BotApi {
    const respond: (nat, Request) -> Reply
    var requests: seq<Request>

    constructor (respond: (nat, Request) -> Reply)
      ensures this.respond == respond && requests == []
    {
      this.respond := respond;
      requests := [];
    }

    method Send(q: Request) returns (reply: Reply)
      modifies this
      ensures requests == old(requests) + [q]
      ensures reply == respond(|old(requests)|, q)
    {
      reply := respond(|requests|, q);
      requests := requests + [q];
    }
  }

  /** A client bound to one bot token. */
  class BotClient {
    const botToken: string
    const api: BotApi

    constructor (botToken: string, api: BotApi)
      ensures this.botToken == botToken && this.api == api
    {
      this.botToken := botToken;
      this.api := api;
    }

    method UploadFile(chatId: string, fileName: string) returns (r: Result<UploadResult, string>)
      modifies api
      ensures api.requests == old(api.requests) + [SendDocumentRequest(botToken, chatId, fileName)]
      ensures r == ReadUpload(api.respond(|old(api.requests)|, SendDocumentRequest(botToken, chatId, fileName)))
    {
      var reply := api.Send(SendDocumentRequest(botToken, chatId, fileName));
      r := ReadUpload(reply);
    }

    method GetFileLink(fileId: string) returns (r: Result<string, string>)
      modifies api
      ensures api.requests == old(api.requests) + [GetFileRequest(botToken, fileId)]
      ensures r == ReadLink(botToken, api.respond(|old(api.requests)|, GetFileRequest(botToken, fileId)))
    {
      var reply := api.Send(GetFileRequest(botToken, fileId));
      r := ReadLink(botToken, reply);
    }

    method DeleteMessage(chatId: string, messageId: int) returns (ok: bool)
      modifies api
      ensures api.requests == old(api.requests) + [DeleteMessageRequest(botToken, chatId, messageId)]
      ensures ok == ReadDelete(api.respond(|old(api.requests)|, DeleteMessageRequest(botToken, chatId, messageId)))
    {
      var reply := api.Send(DeleteMessageRequest(botToken, chatId, messageId));
      ok := ReadDelete(reply);
    }
  }

  /** One client per bot token, created on first use and never evicted. The
    * same shape serves the service factory's cache of clients and the
    * flyweight's cache of adapters. */
  class ClientCache {
    var instances: map<string, BotClient>
    const api: BotApi

    ghost predicate Valid()
      reads this
    {
      forall t :: t in instances ==> instances[t].botToken == t && instances[t].api == api
    }

    constructor (api: BotApi)
      ensures Valid() && instances == map[] && this.api == api
    {
      instances := map[];
      this.api := api;
    }

    method GetInstance(botToken: string) returns (c: BotClient)
      requires Valid()
      modifies this`instances
      ensures Valid()
      ensures botToken in instances && c == instances[botToken]
      ensures c.botToken == botToken && c.api == api
      ensures botToken in old(instances) ==> instances == old(instances)
      ensures botToken !in old(instances) ==> instances == old(instances)[botToken := c] && fresh(c)
    {
      if botToken !in instances {
        var client := new BotClient(botToken, api);
        instances := instances[botToken := client];
      }
      c := instances[botToken];
    }
  }
}
