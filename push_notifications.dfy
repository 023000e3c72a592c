/**
 * Model of middleware/pushNotificationService.js: the classification of
 * notification types into sections with their canned messages, the
 * unseen-count rule of handlePushNotification, the FCM payloads built by
 * sendPushNotification and notifyUser, and the notify-then-save loop of
 * notifyFollowedUsers. Every Supabase query and FCM send is an input: the
 * rows or the error it returned.
 */
module PushNotifications {
  import opened Outcomes

  type UserId = string

  /** The `{ success: true }` / `{ success: false, error }` objects the service returns. */
  datatype Outcome = Success | Failure(error: string)

  // ---------------------------------------------------------------------------
  // saveNotificationConditions and saveNotification
  // ---------------------------------------------------------------------------

  const ActivitySection := "activity"
  const NotificationSection := "notification"

  /** `friendSectionTypes` and `notificationSectionTypes`. */
  const FriendSectionTypes: seq<string> := ["Tag", "Event Participation"]
  const NotificationSectionTypes: seq<string> := ["Like", "Comment", "Follow", "Follow-Request"]

  /** One row inserted into `notification_table` by saveNotification. */
  datatype NotificationRow = NotificationRow(
    senderId: UserId,
    receiverId: UserId,
    section: string,       // column notification_type
    message: string,
    title: string)         // column notification_title

  /** The `switch` on the type: five types get a fixed message, any other keeps the caller's. */
  function CannedMessage(notificationType: string, message: string): string
  {
    match notificationType
    case "Like" => "Liked your post"
    case "Comment" => "Commented on your post"
    case "Tag" => "Tagged you in a post"
    case "Follow" => "Started following you"
    case "Follow-Request" => "Sent you a follow request"
    case _ => message
  }

  /** The section a type is saved under, by the two `includes` tests in order. */
  function SectionOf(notificationType: string): Option<string>
  {
    if notificationType in FriendSectionTypes then Some(ActivitySection)
    else if notificationType in NotificationSectionTypes then Some(NotificationSection)
    else None
  }

  /**
   * `saveNotification`: the row it inserts into notification_table and what
   * it reports. `insertFailed` is whether the insert returned an error.
   */
  function SaveNotification(
    senderId: UserId, receiverId: UserId, section: string, message: string, title: string,
    insertFailed: bool): (r: (NotificationRow, Outcome))
    ensures r.0.senderId == senderId && r.0.receiverId == receiverId
    ensures r.0.section == section && r.0.message == message && r.0.title == title
    ensures r.1 == Success <==> !insertFailed
    ensures insertFailed ==> r.1 == Failure("Failed to save notification")
  {
    var row := NotificationRow(senderId, receiverId, section, message, title);
    (row, if insertFailed then Failure("Failed to save notification") else Success)
  }

  /**
   * What one call of saveNotificationConditions returns, and the row it hands
   * to saveNotification (the insert it attempts, whether or not that insert succeeds).
   */
  datatype SaveReport = SaveReport(result: Outcome, attempted: Option<NotificationRow>)

  /**
   * `saveNotificationConditions`. `insertFailed` is whether the insert into
   * notification_table failed; the outcome saveNotification reports is
   * awaited and discarded, so it does not reach the result.
   */
  function SaveNotificationConditions(
    senderId: UserId, receiverId: UserId, notificationType: string, message: string, insertFailed: bool): (r: SaveReport)
    ensures r.result.Success? <==> r.attempted.Some?
    ensures r.result.Failure? ==> r.result.error == "Invalid notification type"
    ensures r.attempted.Some? ==>
      var row := r.attempted.value;
      row.senderId == senderId && row.receiverId == receiverId && row.title == notificationType
  {
    var canned := CannedMessage(notificationType, message);
    match SectionOf(notificationType)
    case None => SaveReport(Failure("Invalid notification type"), None)
    case Some(section) =>
      var (row, _) := SaveNotification(senderId, receiverId, section, canned, notificationType, insertFailed);
      SaveReport(Success, Some(row))
  }

  /** "Tag" and "Event Participation" are saved under section "activity". */
  lemma ActivityTypes(senderId: UserId, receiverId: UserId, t: string, message: string, insertFailed: bool)
    requires t == "Tag" || t == "Event Participation"
    ensures var r := SaveNotificationConditions(senderId, receiverId, t, message, insertFailed);
      r.result == Success && r.attempted.Some? && r.attempted.value.section == "activity"
  {
  }

  /** "Like", "Comment", "Follow" and "Follow-Request" are saved under section "notification". */
  lemma NotificationTypes(senderId: UserId, receiverId: UserId, t: string, message: string, insertFailed: bool)
    requires t == "Like" || t == "Comment" || t == "Follow" || t == "Follow-Request"
    ensures var r := SaveNotificationConditions(senderId, receiverId, t, message, insertFailed);
      r.result == Success && r.attempted.Some? && r.attempted.value.section == "notification"
  {
  }

  /** Any other type is rejected and nothing is inserted. */
  lemma InvalidTypeRejected(senderId: UserId, receiverId: UserId, t: string, message: string, insertFailed: bool)
    requires t !in FriendSectionTypes + NotificationSectionTypes
    ensures SaveNotificationConditions(senderId, receiverId, t, message, insertFailed)
         == SaveReport(Failure("Invalid notification type"), None)
  {
  }

  /**
   * The saved message: fixed text for the five typed cases, the caller's text
   * for "Event Participation"; the title is always the type itself.
   */
  lemma SavedMessageRule(senderId: UserId, receiverId: UserId, t: string, message: string, insertFailed: bool)
    requires t in FriendSectionTypes + NotificationSectionTypes
    ensures var r := SaveNotificationConditions(senderId, receiverId, t, message, insertFailed);
      r.attempted.Some? && r.attempted.value.title == t
      && (t == "Event Participation" ==> r.attempted.value.message == message)
      && (t == "Like" ==> r.attempted.value.message == "Liked your post")
      && (t == "Comment" ==> r.attempted.value.message == "Commented on your post")
      && (t == "Tag" ==> r.attempted.value.message == "Tagged you in a post")
      && (t == "Follow" ==> r.attempted.value.message == "Started following you")
      && (t == "Follow-Request" ==> r.attempted.value.message == "Sent you a follow request")
  {
  }

  /** A valid type reports success even when the insert itself failed. */
  lemma SaveFailureIgnored(senderId: UserId, receiverId: UserId, t: string, message: string)
    requires t in FriendSectionTypes + NotificationSectionTypes
    ensures SaveNotificationConditions(senderId, receiverId, t, message, true).result == Success
    ensures SaveNotificationConditions(senderId, receiverId, t, message, true)
         == SaveNotificationConditions(senderId, receiverId, t, message, false)
  {
  }

  // ---------------------------------------------------------------------------
  // handlePushNotification
  // ---------------------------------------------------------------------------

  /** The column of an `ind_message_table` row that the rule reads. */
  datatype ChatMessage = ChatMessage(isSeen: bool)

  /** The `User_Info` columns the service selects. */
  datatype UserInfo = UserInfo(fcmToken: Option<string>, fullName: string)

  /** Rows the query returns: `.limit(20)`. */
  const FetchLimit: nat := 20

  /** `messages.filter((msg) => !msg.is_seen)`. */
  function Unseen(ms: seq<ChatMessage>): (r: seq<ChatMessage>)
    ensures |r| <= |ms|
    ensures forall k | 0 <= k < |r| :: !r[k].isSeen
    ensures multiset(r)[ChatMessage(false)] == multiset(ms)[ChatMessage(false)]
  {
    if ms == [] then []
    else
      var init := ms[..|ms| - 1];
      assert ms == init + [ms[|ms| - 1]];
      Unseen(init) + (if ms[|ms| - 1].isSeen then [] else [ms[|ms| - 1]])
  }

  /** Decimal text of a natural number, as `${n}` renders it. */
  function DecimalString(n: nat): (s: string)
    ensures |s| >= 1
    ensures forall k | 0 <= k < |s| :: '0' <= s[k] <= '9'
    ensures n > 0 ==> s[0] != '0'
  {
    if n < 10 then ["0123456789"[n]] else DecimalString(n / 10) + ["0123456789"[n % 10]]
  }

  /** Reads decimal digits back into a number; the inverse of DecimalString. */
  function ParseDecimal(s: string): nat
    requires forall k | 0 <= k < |s| :: '0' <= s[k] <= '9'
  {
    if s == [] then 0 else ParseDecimal(s[..|s| - 1]) * 10 + (s[|s| - 1] - '0') as nat
  }

  lemma {:induction false} DecimalRoundTrip(n: nat)
    ensures ParseDecimal(DecimalString(n)) == n
  {
    if n >= 10 {
      var s := DecimalString(n);
      assert s[..|s| - 1] == DecimalString(n / 10);
      DecimalRoundTrip(n / 10);
    }
  }

  /** A call of `sendPushNotification(receiverId, senderId, messageBody, fullName)`. */
  datatype PushRequest = PushRequest(receiverId: UserId, senderId: UserId, body: string, fullName: string)

  /** The summary body: `${unseenMessages.length} new messages from ${user.full_name}`. */
  function SummaryBody(count: nat, fullName: string): string
  {
    DecimalString(count) + " new messages from " + fullName
  }

  /** The rows the query returns: the newest `FetchLimit` of them. */
  function Fetched(rows: seq<ChatMessage>): (f: seq<ChatMessage>)
    ensures |f| == (if |rows| < FetchLimit then |rows| else FetchLimit)
    ensures f == rows[..|f|]
  {
    rows[..if |rows| < FetchLimit then |rows| else FetchLimit]
  }

  /** The number of unseen messages among the newest twenty rows, those the query returns. */
  function UnseenCount(rows: seq<ChatMessage>): (n: nat)
    ensures n <= FetchLimit
    ensures n == multiset(Fetched(rows))[ChatMessage(false)]
  {
    UnseenCountsUnseen(Fetched(rows));
    |Unseen(Fetched(rows))|
  }

  /**
   * `handlePushNotification`. `rows` are the chat's messages from the sender,
   * newest first, before the limit; `sender` is the result of the User_Info
   * lookup of the sender. The result is the sendPushNotification call it
   * makes, if any.
   */
  function HandlePushNotification(
    senderId: UserId, receiverId: UserId, currentMessage: string,
    rows: Result<seq<ChatMessage>, string>, sender: Result<UserInfo, string>): (r: Option<PushRequest>)
    ensures r.None? <==> rows.Err? || sender.Err? || UnseenCount(rows.value) == 0
    ensures r.Some? ==>
      && r.value.receiverId == receiverId && r.value.senderId == senderId
      && r.value.fullName == sender.value.fullName
      && (UnseenCount(rows.value) == 1 ==> r.value.body == currentMessage)
  {
    if rows.Err? then None
    else
      var unseen := UnseenCount(rows.value);
      if sender.Err? then None
      else if unseen == 1 then Some(PushRequest(receiverId, senderId, currentMessage, sender.value.fullName))
      else if unseen > 1 then Some(PushRequest(receiverId, senderId, SummaryBody(unseen, sender.value.fullName), sender.value.fullName))
      else None
  }

  /**
   * The three-way rule: no unseen message sends nothing, exactly one sends
   * the current message, more send an "N new messages from X" summary whose
   * number reads back as the count; a failed lookup sends nothing.
   */
  lemma PushDecision(
    senderId: UserId, receiverId: UserId, currentMessage: string,
    rows: Result<seq<ChatMessage>, string>, sender: Result<UserInfo, string>)
    ensures var r := HandlePushNotification(senderId, receiverId, currentMessage, rows, sender);
      && (rows.Err? || sender.Err? ==> r == None)
      && (rows.Ok? && sender.Ok? ==>
            var n := UnseenCount(rows.value);
            && (n == 0 ==> r == None)
            && (n == 1 ==> r == Some(PushRequest(receiverId, senderId, currentMessage, sender.value.fullName)))
            && (n > 1 ==>
                  && r.Some? && r.value.receiverId == receiverId && r.value.senderId == senderId
                  && r.value.fullName == sender.value.fullName
                  && 2 <= n <= FetchLimit
                  && r.value.body == DecimalString(n) + " new messages from " + sender.value.fullName
                  && ParseDecimal(DecimalString(n)) == n))
  {
    if rows.Ok? && sender.Ok? {
      DecimalRoundTrip(UnseenCount(rows.value));
    }
  }

  /** The length of the filter is the number of unseen rows. */
  lemma {:induction false} UnseenCountsUnseen(ms: seq<ChatMessage>)
    ensures |Unseen(ms)| == multiset(ms)[ChatMessage(false)]
  {
    var r := Unseen(ms);
    assert forall k | 0 <= k < |r| :: r[k] == ChatMessage(false);
    AllEqualMultiset(r, ChatMessage(false));
  }

  lemma {:induction false} AllEqualMultiset(r: seq<ChatMessage>, x: ChatMessage)
    requires forall k | 0 <= k < |r| :: r[k] == x
    ensures multiset(r)[x] == |r|
  {
    if r != [] {
      assert r == r[..|r| - 1] + [x];
      AllEqualMultiset(r[..|r| - 1], x);
    }
  }

  // ---------------------------------------------------------------------------
  // sendPushNotification and notifyUser: the payloads
  // ---------------------------------------------------------------------------

  /** The message object handed to `admin.messaging().send` by sendPushNotification. */
  datatype ChatPush = ChatPush(
    token: string, title: string, body: string,
    androidTag: string,      // android.notification.tag
    apnsThreadId: string)    // apns.payload.aps["thread-id"]

  /** The payload handed to `admin.messaging().send` by notifyUser. */
  datatype TypedPush = TypedPush(token: string, title: string, body: string)

  /** `error || !user?.fcm_token`: the token to use, absent when the lookup failed or it is null or empty. */
  function UsableToken(receiver: Result<UserInfo, string>): (t: Option<string>)
    ensures t.Some? ==> t.value != ""
    ensures t.Some? ==> receiver.Ok? && t == receiver.value.fcmToken
    ensures t.Some? <==> receiver.Ok? && receiver.value.fcmToken.Some? && receiver.value.fcmToken.value != ""
  {
    if receiver.Err? then None
    else match receiver.value.fcmToken
      case None => None
      case Some(tok) => if tok == "" then None else Some(tok)
  }

  /**
   * `sendPushNotification`: the FCM message it sends, if any; `receiver` is
   * the User_Info lookup of the receiver. A failed send is caught and logged.
   */
  function SendPushNotification(req: PushRequest, receiver: Result<UserInfo, string>): (r: Option<ChatPush>)
    ensures r.None? <==> UsableToken(receiver).None?
    ensures r.Some? ==>
      && r.value.token == UsableToken(receiver).value
      && r.value.title == "Message from " + req.fullName
      && r.value.body == req.body
      && r.value.androidTag == req.senderId
      && r.value.apnsThreadId == req.senderId
  {
    match UsableToken(receiver)
    case None => None
    case Some(token) =>
      Some(ChatPush(token, "Message from " + req.fullName, req.body, req.senderId, req.senderId))
  }

  /**
   * `notifyUser`: its result and the payload it sends, if any. `sendFailed`
   * is whether `admin.messaging().send` threw.
   */
  function NotifyUser(
    receiver: Result<UserInfo, string>, notificationType: string, message: string, sendFailed: bool): (r: (Outcome, Option<TypedPush>))
    ensures r.1.None? <==> UsableToken(receiver).None?
    ensures r.1.None? ==> r.0 == Failure("FCM token not found")
    ensures r.1.Some? ==> r.1.value == TypedPush(UsableToken(receiver).value, notificationType, message)
    ensures r.1.Some? ==> (r.0 == Success <==> !sendFailed)
    ensures r.0.Failure? && r.1.Some? ==> r.0.error == "Internal server error"
  {
    match UsableToken(receiver)
    case None => (Failure("FCM token not found"), None)
    case Some(token) =>
      var payload := TypedPush(token, notificationType, message);
      if sendFailed then (Failure("Internal server error"), Some(payload)) else (Success, Some(payload))
  }

  // ---------------------------------------------------------------------------
  // getFollowedUsers and notifyFollowedUsers
  // ---------------------------------------------------------------------------

  /** A `user_following` row as selected: its `followed_id` column. */
  datatype FollowRow = FollowRow(followedId: UserId)

  /** `data.map((user) => user.followed_id)`. */
  function FollowedIds(rows: seq<FollowRow>): (ids: seq<UserId>)
    ensures |ids| == |rows|
    ensures forall k | 0 <= k < |ids| :: ids[k] == rows[k].followedId
  {
    if rows == [] then [] else FollowedIds(rows[..|rows| - 1]) + [rows[|rows| - 1].followedId]
  }

  /** `getFollowedUsers`: the followed ids of the rows in order, or none when the query failed. */
  function GetFollowedUsers(followRows: Result<seq<FollowRow>, string>): (ids: seq<UserId>)
    ensures followRows.Err? ==> ids == []
    ensures followRows.Ok? ==>
      |ids| == |followRows.value| && forall k | 0 <= k < |ids| :: ids[k] == followRows.value[k].followedId
  {
    match followRows
    case Err(_) => []
    case Ok(rows) => FollowedIds(rows)
  }

  /** The service calls notifyFollowedUsers makes, with their arguments. */
  datatype ServiceCall =
    | NotifyUserCall(senderId: UserId, receiverId: UserId, notificationType: string, message: string)
    | SaveConditionsCall(senderId: UserId, receiverId: UserId, notificationType: string, message: string)

  /** For each followed id in order: notifyUser, then saveNotificationConditions. */
  function FollowerCalls(senderId: UserId, ids: seq<UserId>, notificationType: string, message: string): seq<ServiceCall>
  {
    if ids == [] then []
    else
      var last := ids[|ids| - 1];
      FollowerCalls(senderId, ids[..|ids| - 1], notificationType, message)
        + [NotifyUserCall(senderId, last, notificationType, message),
           SaveConditionsCall(senderId, last, notificationType, message)]
  }

  /**
   * The k-th followed id gets calls 2k (notify) and 2k+1 (save), both with
   * the caller's own type and message.
   */
  lemma {:induction false} FollowerCallsAt(senderId: UserId, ids: seq<UserId>, notificationType: string, message: string)
    ensures var calls := FollowerCalls(senderId, ids, notificationType, message);
      && |calls| == 2 * |ids|
      && (forall k | 0 <= k < |ids| ::
            calls[2 * k] == NotifyUserCall(senderId, ids[k], notificationType, message)
            && calls[2 * k + 1] == SaveConditionsCall(senderId, ids[k], notificationType, message))
  {
    if ids != [] {
      FollowerCallsAt(senderId, ids[..|ids| - 1], notificationType, message);
    }
  }

  /**
   * `notifyFollowedUsers`: fails with "No followed users found" and calls
   * nothing when the list is empty (or its query failed); otherwise notifies
   * then saves for each followed id in order and succeeds. The two inner
   * functions catch their own errors, so their results never stop the loop.
   */
  method NotifyFollowedUsers(
    senderId: UserId, notificationType: string, message: string, followRows: Result<seq<FollowRow>, string>)
    returns (r: Outcome, calls: seq<ServiceCall>)
    ensures GetFollowedUsers(followRows) == [] <==> r.Failure?
    ensures r.Failure? ==> r.error == "No followed users found" && calls == []
    ensures r.Success? ==> calls == FollowerCalls(senderId, GetFollowedUsers(followRows), notificationType, message)
  {
    var followedUserIds := GetFollowedUsers(followRows);
    if |followedUserIds| == 0 {
      return Failure("No followed users found"), [];
    }
    calls := [];
    var i := 0;
    while i < |followedUserIds|
      invariant 0 <= i <= |followedUserIds|
      invariant calls == FollowerCalls(senderId, followedUserIds[..i], notificationType, message)
    {
      var followedId := followedUserIds[i];
      assert followedUserIds[..i + 1][..i] == followedUserIds[..i];
      calls := calls + [NotifyUserCall(senderId, followedId, notificationType, message),
                        SaveConditionsCall(senderId, followedId, notificationType, message)];
      i := i + 1;
    }
    assert followedUserIds[..|followedUserIds|] == followedUserIds;
    r := Success;
  }
}
