/**
 * The navigation bar: sign-out, the unread-notifications badge and a click
 * on a notification. Toast texts that go through the translation table are
 * kept as their translation keys. The avatar of a notification's sender is
 * `FileUrls.AvatarUrl`.
 */
module Navbar {
  import opened Wrappers
  import opened Strings
  import opened Js
  import opened AuthSlice
  import opened BrowserStorage
  import AuthGate

  const LogoutSuccess := "auth.logoutSuccess"
  const LogoutFailed := "auth.logoutFailed"

  datatype LogoutReply = LoggedOut | LogoutRejected(serverMessage: Option<string>)

  /**
   * `handleLogout`: after the server confirms, the three storage keys are
   * removed, the session is cleared, the request cache is reset
   * (`cacheReset`) and the app goes home; a failure only shows a toast.
   */
  method Logout(auth: AuthStore, storage: LocalStorage, reply: LogoutReply)
    returns (cacheReset: bool, toast: string, nav: Option<string>)
    modifies auth, storage
    ensures reply.LoggedOut? ==>
              && storage.accessToken.None? && storage.authUser.None? && storage.legacyToken.None?
              && auth.State() == old(auth.State()).ClearCredentials()
              && cacheReset && toast == LogoutSuccess && nav == Some("/")
    ensures reply.LogoutRejected? ==>
              && storage.accessToken == old(storage.accessToken) && storage.authUser == old(storage.authUser)
              && storage.legacyToken == old(storage.legacyToken)
              && auth.State() == old(auth.State())
              && !cacheReset && toast == OrText(reply.serverMessage, LogoutFailed) && nav.None?
  {
    match reply
    case LogoutRejected(serverMessage) =>
      return false, OrText(serverMessage, LogoutFailed), None;
    case LoggedOut =>
      storage.accessToken := None;
      storage.authUser := None;
      storage.legacyToken := None;
      auth.ClearCredentials();
      cacheReset := true;
      toast := LogoutSuccess;
      nav := Some("/");
  }

  /** After a sign-out the storage holds no token, so restoring the session on the next load stays signed out. */
  lemma SignedOutAfterReload(a: AuthState)
    ensures var r := AuthGate.HydrateOn(a.ClearCredentials(), None, None);
      r.user.None? && r.status == Anonymous && r.redirectPath == a.redirectPath
  {
  }

  /** `notificationsData?.unreadCount || 0`, with the count a number or missing. */
  function UnreadCount(count: Option<int>): (n: int)
    ensures count.None? ==> n == 0
    ensures count.Some? ==> n == count.value
  {
    count.GetOr(0)
  }

  /** The bell's badge: none unless something is unread, "9+" above nine, otherwise the number. */
  function UnreadBadge(unread: int): (badge: Option<string>)
    ensures badge.Some? <==> unread > 0
    ensures unread > 9 ==> badge == Some("9+")
    ensures 0 < unread <= 9 ==>
              badge.Some? && |badge.value| == 1 && IsDigit(badge.value[0]) && ParseDigits(badge.value) == unread
  {
    if unread <= 0 then None
    else if unread > 9 then Some("9+")
    else
      NatToStringRoundTrip(unread);
      Some(NatToString(unread))
  }

  /** Whatever the count, the badge is at most two characters wide. */
  lemma BadgeFits(unread: int)
    ensures UnreadBadge(unread).Some? ==> |UnreadBadge(unread).value| <= 2
  {
  }

  /** The "mark all as read" button is shown exactly with the badge. */
  function MarkAllShown(unread: int): (shown: bool)
    ensures shown <==> UnreadBadge(unread).Some?
  {
    unread > 0
  }

  lemma MarkAllShownWithBadge(unread: int)
    ensures MarkAllShown(unread) <==> UnreadBadge(unread).Some?
  {
  }

  /** `notification.question._id || notification.question`: a populated question's id, or the value itself. */
  function QuestionRef(question: Json): (ref: Json)
    ensures question.JObj? && Truthy(Get(question.fields, "_id")) ==> ref == Get(question.fields, "_id")
    ensures !question.JObj? ==> ref == question
  {
    match question
    case JObj(fields) => Or(Get(fields, "_id"), question)
    case _ => question
  }

  /** The panel's open state. */
  class NotificationPanel {
    var open: bool

    constructor ()
      ensures !open
    {
      open := false;
    }

    /** The bell button. */
    method Toggle()
      modifies this
      ensures open == !old(open)
    {
      open := !open;
    }

    /** A mouse press outside the panel. */
    method ClickOutside()
      modifies this
      ensures !open
    {
      open := false;
    }

    /**
     * A click on a notification: an unread one is marked read (whose
     * failure is ignored, so no reply is modelled), and one about a question
     * opens that question and closes the panel.
     */
    method ClickNotification(notification: Record) returns (markRead: Option<Json>, nav: Option<string>)
      modifies this
      ensures markRead.Some? <==> !Truthy(Get(notification, "read"))
      ensures markRead.Some? ==> markRead.value == Get(notification, "_id")
      ensures nav.Some? <==> Truthy(Get(notification, "question"))
      ensures nav.Some? ==> nav.value == "/questions/" + Display(QuestionRef(Get(notification, "question")))
      ensures open == (old(open) && nav.None?)
    {
      markRead := None;
      if !Truthy(Get(notification, "read")) {
        markRead := Some(Get(notification, "_id"));
      }
      nav := None;
      var question := Get(notification, "question");
      if Truthy(question) {
        nav := Some("/questions/" + Display(QuestionRef(question)));
        open := false;
      }
    }
  }

  /** A notification carrying the populated question and one carrying only its id lead to the same page. */
  lemma PopulatedAndBareQuestionAgree(fields: Record, id: string)
    requires Get(fields, "_id") == JStr(id) && id != ""
    ensures QuestionRef(JObj(fields)) == QuestionRef(JStr(id))
  {
  }
}
