/**
 * Model of controllers/messageController.js, `sendMessage`: validate the
 * message, encrypt it, resolve the chat, append `{ [timestamp]: ciphertext }`.
 * The store's answers, the clock and the random IV are inputs; the result is
 * the HTTP response together with the steps taken, in order.
 */
module MessageController {
  import opened Outcomes
  import opened Encryption

  /** A field of the JSON request body: missing, a string, or some other JSON value. */
  datatype JsonField = Missing | Text(text: string) | NonText

  datatype Request = Request(senderId: JsonField, receiverId: JsonField, message: JsonField)

  /** A Supabase error object; the controller reports its `message`. */
  datatype StoreError = StoreError(message: string)

  /** The steps the handler takes after validation, in the order it takes them. */
  datatype Step<ChatId> =
    | EncryptStep(plaintext: string)
    | FindOrCreateChat(senderId: JsonField, receiverId: JsonField)
    | AppendMessage(chatId: ChatId, messageObject: map<string, string>)

  datatype Body<Data> = ErrorBody(error: string) | DataBody(data: Data)

  datatype Response<Data> = Response(status: nat, body: Body<Data>)

  const InvalidMessageText := "Invalid message. It must be a non-empty string."

  /** `!message || typeof message !== 'string'` is false exactly for non-empty strings. */
  predicate ValidMessage(m: JsonField) {
    m.Text? && m.text != ""
  }

  /**
   * `sendMessage(req, res)`. `chat` is what `findOrCreateChat` returned and
   * `appended` what `appendMessage` returned; either is only consulted if the
   * handler reaches that call.
   */
  function SendMessage<ChatId, Data>(
    req: Request, timestamp: string, key: SecretKey, iv: Iv, c: Cipher,
    chat: Result<ChatId, StoreError>, appended: Result<Data, StoreError>): (out: (Response<Data>, seq<Step<ChatId>>))
    ensures !ValidMessage(req.message) <==> out.0.status == 400
    ensures !ValidMessage(req.message) ==> out == (Response(400, ErrorBody(InvalidMessageText)), [])
    ensures ValidMessage(req.message) && chat.Err? ==>
      out.0 == Response(500, ErrorBody(chat.error.message)) && |out.1| == 2
    ensures ValidMessage(req.message) && chat.Ok? ==>
      |out.1| == 3 && out.0 == (if appended.Err? then Response(500, ErrorBody(appended.error.message)) else Response(200, DataBody(appended.value)))
  {
    if !ValidMessage(req.message) then
      (Response(400, ErrorBody(InvalidMessageText)), [])
    else
      var plaintext := req.message.text;
      var encryptedMessage := Encrypt(key, iv, plaintext, c);
      var steps := [EncryptStep(plaintext), FindOrCreateChat(req.senderId, req.receiverId)];
      match chat
      case Err(e) => (Response(500, ErrorBody(e.message)), steps)
      case Ok(chatId) =>
        var messageObject := map[timestamp := encryptedMessage];
        var steps := steps + [AppendMessage(chatId, messageObject)];
        match appended
        case Err(e) => (Response(500, ErrorBody(e.message)), steps)
        case Ok(data) => (Response(200, DataBody(data)), steps)
  }

  /** The full order of steps for a valid message: encrypt, resolve the chat, append. */
  function FullSteps<ChatId>(req: Request, chatId: ChatId, timestamp: string, ciphertext: string): seq<Step<ChatId>>
    requires req.message.Text?
  {
    [EncryptStep(req.message.text), FindOrCreateChat(req.senderId, req.receiverId),
     AppendMessage(chatId, map[timestamp := ciphertext])]
  }

  /**
   * Steps happen in a fixed order and none runs after a failure: the steps
   * taken are a prefix of the full order, ending where the first failure is.
   */
  lemma StepsArePrefix<ChatId, Data>(
    req: Request, timestamp: string, key: SecretKey, iv: Iv, c: Cipher,
    chat: Result<ChatId, StoreError>, appended: Result<Data, StoreError>, someChat: ChatId)
    requires ValidMessage(req.message)
    ensures var steps := SendMessage(req, timestamp, key, iv, c, chat, appended).1;
      var chatId := if chat.Ok? then chat.value else someChat;
      var full := FullSteps(req, chatId, timestamp, Encrypt(key, iv, req.message.text, c));
      && steps <= full
      && (chat.Err? ==> steps == full[..2])
      && (chat.Ok? ==> steps == full)
  {
  }

  /**
   * Only ciphertext reaches the store: the appended object has the one key
   * `timestamp`, its value is framed `ivHex:dataHex`, and it decrypts to the
   * message. No store step carries the plaintext.
   */
  lemma OnlyCiphertextStored<ChatId, Data>(
    req: Request, timestamp: string, key: SecretKey, iv: Iv, c: Cipher,
    chat: Result<ChatId, StoreError>, appended: Result<Data, StoreError>)
    requires Invertible(c)
    ensures var steps := SendMessage(req, timestamp, key, iv, c, chat, appended).1;
      forall s | s in steps && s.AppendMessage? ::
        && ValidMessage(req.message)
        && s.messageObject.Keys == {timestamp}
        && s.messageObject[timestamp][..2 * IvLength] == HexEncode(iv)
        && s.messageObject[timestamp][2 * IvLength] == ':'
        && Decrypt(key, s.messageObject[timestamp], c) == Ok(req.message.text)
  {
    if ValidMessage(req.message) {
      DecryptEncrypt(key, iv, req.message.text, c);
    }
  }
}
