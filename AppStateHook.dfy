/**
 * The application-state hook: the current screen, the applicant's data, and
 * the browser's `userData` cookie that mirrors it between visits.
 */
module AppStateHook {
  import opened Wrappers
  import opened Domain

  datatype Screen = Welcome | Explanation | Interview

  /** What the `userData` cookie holds: serialised applicant data, or text that does not parse. */
  datatype StoredCookie = UserDataJson(data: UserData) | Unparseable(raw: string)

  /** The applicant data a cookie yields on load, if it parses. */
  function Parse(cookie: Option<StoredCookie>): (d: Option<UserData>)
    ensures d.Some? <==> cookie.Some? && cookie.value.UserDataJson?
    ensures d.Some? ==> cookie == Some(UserDataJson(d.value))
  {
    match cookie
    case Some(UserDataJson(data)) => Some(data)
    case _ => None
  }

  class AppState {
    var currentScreen: Screen
    var userData: Option<UserData>
    /** The browser's `userData` cookie. */
    var cookie: Option<StoredCookie>

    /** Whenever applicant data is held in memory, the cookie holds exactly that data. */
    ghost predicate Mirrored()
      reads this
    {
      userData.Some? ==> cookie == Some(UserDataJson(userData.value))
    }

    /** First render: the welcome screen and no data, whatever the browser has stored. */
    constructor (cookie: Option<StoredCookie>)
      ensures currentScreen == Welcome && userData == None && this.cookie == cookie
      ensures Mirrored()
    {
      currentScreen := Welcome;
      userData := None;
      this.cookie := cookie;
    }

    /** The mount effect: parseable cookie data is taken over; the screen stays where it is. */
    method LoadFromCookie()
      modifies this
      ensures userData == if Parse(cookie).Some? then Parse(cookie) else old(userData)
      ensures currentScreen == old(currentScreen) && cookie == old(cookie)
      ensures old(Mirrored()) ==> Mirrored()
    {
      var parsed := Parse(cookie);
      if parsed.Some? {
        userData := parsed;
      }
    }

    method SaveUserData(data: UserData)
      modifies this
      ensures userData == Some(data) && cookie == Some(UserDataJson(data))
      ensures currentScreen == old(currentScreen)
      ensures Mirrored()
    {
      userData := Some(data);
      cookie := Some(UserDataJson(data));
    }

    method NavigateToScreen(screen: Screen)
      modifies this
      ensures currentScreen == screen
      ensures userData == old(userData) && cookie == old(cookie)
      ensures old(Mirrored()) ==> Mirrored()
    {
      currentScreen := screen;
    }

    method ClearUserData()
      modifies this
      ensures userData == None && cookie == None
      ensures currentScreen == old(currentScreen)
      ensures Mirrored()
    {
      userData := None;
      cookie := None;
    }
  }
}
