# MEMO backend messaging core, modelled in Dafny

This project models the sequential logic of the MEMO backend's messaging
features:

- **Group-chat sockets** (`grp_websockets.dfy`, module `GroupSockets`): the
  module-level `connections` map from user id to WebSocket, the `register`
  and `close` handlers that overwrite and delete its entries, and the group
  `sendMessage` handler that saves the message once and then, only if the
  save reported no error, sends one `receiveMessage` envelope to each listed
  member that has an entry. The map is a field of class `Server`; each
  connection is a `Socket` object holding the handler's `userId` variable.
- **Notification rules** (`push_notifications.dfy`, module
  `PushNotifications`): how `saveNotificationConditions` classifies a
  notification type into the `activity` or `notification` section with its
  fixed message; the unseen-count rule of `handlePushNotification` (none,
  the current message, or an "N new messages from X" summary); the FCM
  payloads of `sendPushNotification` and `notifyUser`; and the
  notify-then-save loop of `notifyFollowedUsers`.
- **Encryption framing** (`encryption.dfy`, module `Encryption`): padding or
  truncating the secret key to 32 characters, the `ivHex:dataHex` text that
  `encrypt` emits, and the split on `':'` in `decrypt`. AES-256-CBC is an
  abstract `Cipher` (two functions), and `Invertible` says that deciphering
  undoes enciphering under the same key and IV.
- **Direct-message handler** (`message_controller.dfy`, module
  `MessageController`): the HTTP `sendMessage` controller as a function from
  the request and the store's answers to the response and the steps taken.

`outcomes.dfy` holds the shared `Option` and `Result` types.

Database queries, FCM sends, the clock and the random IV are inputs to the
model: the rows or error a query returned, whether a send failed, the
timestamp string, the IV bytes.

Behaviour of the code worth knowing:

- `close` has no identity check. A stale connection's close evicts a newer
  registration under the same id (`StaleCloseEvictsNewer`).
- Group messages are saved as the plaintext the client sent. They are not
  encrypted.
- The group fan-out has no fallback for members that are not connected. It
  also does not skip the sender.

## Model

| member | source | states |
|---|---|---|
| GroupSockets.Server.Register | utils/grpWebSockets.js:12-14 | the connection remembers `u`; the entry for `u` is now this socket, overwriting any earlier one; every other entry is unchanged |
| GroupSockets.Server.Close | utils/grpWebSockets.js:36-38 | the entry under the connection's id is deleted whatever socket it holds, and nothing else changes; a connection that never registered deletes nothing |
| GroupSockets.StaleCloseEvictsNewer | utils/grpWebSockets.js:12-38 | after a second socket registers `u` and the first socket closes, `u` has no entry even though the second socket is open |
| GroupSockets.ReRegisterKeepsOldEntry | utils/grpWebSockets.js:12-38 | a connection that registers as `u` then as `v` and closes leaves its entry under `u` in the map |
| GroupSockets.Server.SendMessage | utils/grpWebSockets.js:15-32 | exactly one save call with grpId, senderId and message; nothing is sent when the save failed; otherwise the sends are the fan-out of the current map over `members`; the map is not modified |
| GroupSockets.Server.OnMessage | utils/grpWebSockets.js:9-34 | `register` only updates the map and the connection's id; `sendMessage` only saves and sends, leaving the map unchanged; any other type does nothing |
| GroupSockets.FanOutAddressing | utils/grpWebSockets.js:23-31 | every send goes to a listed member that has an entry, over that entry's socket, carrying exactly `{type:'receiveMessage', grpId, senderId, message}` |
| GroupSockets.FanOutCount | utils/grpWebSockets.js:23-31 | a member with an entry receives as many sends as the number of times it is listed, so once when listed once; a member without an entry receives none |
| GroupSockets.SenderReceivesEcho | utils/grpWebSockets.js:23-31 | when the sender is listed and connected, the sender receives the envelope over its own socket |
| Encryption.PadEnd | utils/encryption.js:5-7 | `padEnd`: the result has length `max(|s|, n)`, starts with `s`, and every added character is the filler |
| Encryption.SliceTo | utils/encryption.js:8-10 | `slice(0, n)`: the first `min(n, |s|)` characters of `s` |
| Encryption.NormalizeKey | utils/encryption.js:4-11 | the key always has exactly 32 characters; a shorter secret is its prefix with `'0'` filling the rest; a longer secret is cut to its first 32 characters; a 32-character secret is unchanged |
| Encryption.NormalizeKeyIdempotent | utils/encryption.js:4-11 | normalising an already normalised key leaves it unchanged |
| Encryption.HexDigit | utils/encryption.js:18 | the digit of a nibble is one of the lower-case digits `0-9a-f`, and its hex value is that nibble |
| Encryption.HexEncode | utils/encryption.js:18 | two lower-case hex characters per byte, so a 16-byte IV gives 32 characters |
| Encryption.HexDecode | utils/encryption.js:26 | decodes at most one byte per two characters |
| Encryption.HexRoundTrip | utils/encryption.js:18-26 | decoding the hex of any bytes, such as the 16-byte IV, gives back the same bytes |
| Encryption.Split | utils/encryption.js:22 | `split(':')` yields at least one piece, no piece contains the separator, and joining the pieces with it gives back the input |
| Encryption.SplitTwo | utils/encryption.js:22 | two separator-free texts joined by the separator split into exactly those two texts |
| Encryption.SplitNoSeparator | utils/encryption.js:22 | a text without the separator splits into one piece, itself |
| Encryption.HexHasNoColon | utils/encryption.js:18 | hex text contains no `':'` |
| Encryption.Encrypt | utils/encryption.js:13-19 | the output is the 32-character IV hex, then one `':'` at index 32, then lower-case hex characters only |
| Encryption.EncryptFraming | utils/encryption.js:18-22 | splitting encrypt's output on `':'` gives exactly the IV hex and the ciphertext hex |
| Encryption.DecryptEncrypt | utils/encryption.js:13-31 | for an invertible cipher, `decrypt(encrypt(t)) == t` for every text, key and IV |
| Encryption.Decrypt | utils/encryption.js:21-31 | the IV piece must decode to 16 bytes, else invalid IV; then a second piece must exist, else missing data; then it must have even length, else the hex is refused; after these checks the result is exactly the plaintext the cipher deciphers from the two decoded pieces, or a bad-decrypt error when it deciphers nothing |
| Encryption.DecryptWithoutColon | utils/encryption.js:21-31 | a text without `':'` has no data piece, so decrypt fails: with an invalid IV error when the text does not decode to 16 bytes, otherwise with a missing-data error |
| MessageController.SendMessage | controllers/messageController.js:19-51 | 400 exactly when the message is missing, empty or not a string, and then no step runs; a chat error gives 500 with its message and no append; an append error gives 500 with its message; otherwise 200 with `{data}` |
| MessageController.StepsArePrefix | controllers/messageController.js:27-48 | the steps taken are encrypt, `findOrCreateChat`, `appendMessage` in this order; a chat error stops them after `findOrCreateChat` |
| MessageController.OnlyCiphertextStored | controllers/messageController.js:32-43 | the appended object has the single key `timestamp`; its value is IV hex, `':'`, then data, and it decrypts to the message |
| PushNotifications.SaveNotification | middleware/pushNotificationService.js:190-217 | the inserted row holds sender, receiver, section, message and title as given; the result is success exactly when the insert did not fail, and otherwise "Failed to save notification" |
| PushNotifications.SaveNotificationConditions | middleware/pushNotificationService.js:224-275 | succeeds exactly when it calls saveNotification (attempts the insert), whether or not that insert succeeds; a failure is always "Invalid notification type"; the row handed over carries sender, receiver, and the type as title |
| PushNotifications.ActivityTypes | middleware/pushNotificationService.js:228-255 | "Tag" and "Event Participation" succeed and are saved under section `activity` |
| PushNotifications.NotificationTypes | middleware/pushNotificationService.js:229-261 | "Like", "Comment", "Follow" and "Follow-Request" succeed and are saved under section `notification` |
| PushNotifications.InvalidTypeRejected | middleware/pushNotificationService.js:263-266 | any other type returns the "Invalid notification type" failure and attempts no insert |
| PushNotifications.SavedMessageRule | middleware/pushNotificationService.js:234-259 | the five types with a fixed message get that message; "Event Participation" keeps the caller's; the title is always the type |
| PushNotifications.SaveFailureIgnored | middleware/pushNotificationService.js:253-260 | a valid type reports success even when the insert failed |
| PushNotifications.Unseen | middleware/pushNotificationService.js:28 | the filter keeps only unseen messages, and all of them |
| PushNotifications.UnseenCountsUnseen | middleware/pushNotificationService.js:28 | the count of the filter is the number of unseen rows |
| PushNotifications.Fetched | middleware/pushNotificationService.js:14-20 | the query returns the newest `min(|rows|, 20)` rows, a prefix of the newest-first list |
| PushNotifications.UnseenCount | middleware/pushNotificationService.js:14-28 | the count is the number of unseen rows among those returned, so it never exceeds 20 |
| PushNotifications.DecimalString | middleware/pushNotificationService.js:45 | the rendered count is a non-empty string of decimal digits with no leading zero |
| PushNotifications.DecimalRoundTrip | middleware/pushNotificationService.js:45 | reading the rendered count back gives the count |
| PushNotifications.HandlePushNotification | middleware/pushNotificationService.js:11-51 | nothing is sent exactly when a lookup failed or no message is unseen; a send goes to the receiver, from the sender, with the sender's full name, and carries the current message when exactly one is unseen |
| PushNotifications.PushDecision | middleware/pushNotificationService.js:11-51 | a failed message or user lookup sends nothing; a count of 0 sends nothing, 1 sends the current message, more sends "N new messages from X" with N the count |
| PushNotifications.UsableToken | middleware/pushNotificationService.js:66-69 | the token used is the receiver's own `fcm_token`, and one is used exactly when the lookup succeeded and that token is present and non-empty |
| PushNotifications.SendPushNotification | middleware/pushNotificationService.js:59-97 | nothing is sent without a usable token; otherwise the title is "Message from " + fullName, the body is the given body, and the Android tag and APNs thread-id both equal senderId |
| PushNotifications.NotifyUser | middleware/pushNotificationService.js:103-136 | without a token, nothing is sent and the result is "FCM token not found"; otherwise the payload is the token, the type as title and the message as body, and the result is success unless the send threw |
| PushNotifications.FollowedIds | middleware/pushNotificationService.js:154 | the k-th id is the `followed_id` of the k-th row, and there is one id per row |
| PushNotifications.GetFollowedUsers | middleware/pushNotificationService.js:142-159 | a failed query yields no ids; otherwise one id per row, the k-th being the k-th row's `followed_id` |
| PushNotifications.FollowerCallsAt | middleware/pushNotificationService.js:173-176 | the k-th followed id gets call 2k, notifyUser, then call 2k+1, saveNotificationConditions, with the caller's type and message |
| PushNotifications.NotifyFollowedUsers | middleware/pushNotificationService.js:164-183 | an empty followed list gives "No followed users found" and no call; otherwise the result is success and the calls are notify-then-save for every followed id in order |

## Left out

- AES-256-CBC is an abstract `Cipher`. `crypto.randomBytes(16)` is replaced by an IV input. This is foreign library code.
- A missing `SECRET_KEY` makes the module throw when it loads. The model takes the secret as a string.
- The key is measured in characters. `Buffer.from(secretKey, 'utf8')` may have more than 32 bytes when the key has non-ASCII characters, and AES would then reject it.
- JavaScript string lengths count UTF-16 code units. The model counts characters.
- Supabase queries and `admin.messaging().send` are not modelled. Their results are inputs.
- The `catch` in `saveNotification` that returns "Internal server error" is not modelled. Its only caller discards the result, so it changes nothing observable.
- `checkAndUpdateFCM` is a plain database update. It has no logic to model.
- `console` logging is not modelled.
- Timestamps (`new Date().toISOString()`) are inputs.
- Handlers run as one atomic step each. The interleaving of async handlers is not modelled.
- `JSON.parse` of a malformed message throws inside the socket handler. The model starts from the parsed message.
- A `register` message without a `userId` would store the socket under the key `undefined`. The model requires a user id in every `register`.
- A `sendMessage` without a `members` array throws in `forEach` after the save. The model requires the list.
- `ws.send` on a socket that has closed is transport behaviour. The model records the send.
- The timestamp column that `saveMessage` adds in models/grpMessageModel.js is not modelled.
- models/messageModel.js as shown exports neither `findOrCreateChat` nor `appendMessage`. The controller's calls to them are modelled as abstract store calls.
- In `handlePushNotification`, a `null` message list without an error would throw in `filter`, which the `try` swallows. The model treats a successful fetch as a list.
- A `null` `full_name` would render as "null". The model takes the name as a string.
- The outer `catch` of `notifyFollowedUsers` ("Internal server error") cannot fire. Both inner functions catch their own errors, and `getFollowedUsers` returns an empty list on failure.
- The failure of an FCM send inside `sendPushNotification` is caught and logged. It changes no result, so the model only records the payload.
- `server.js` and the `routes/` files are not part of this model. They are transport wiring.
