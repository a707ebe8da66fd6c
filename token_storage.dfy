/**
 * Session tokens kept in the browser's local storage: the access token, the
 * refresh token and an expiry time 90 hours after the save. The storage is
 * a string-to-string map that can also refuse every access (it then throws,
 * and each operation falls back to its `catch` value). `Date.now()` is the
 * parameter `now`, in milliseconds.
 */
module TokenStorage {
  import opened Wrappers
  import opened Text

  const TOKEN_KEY := "driveLicense_auth_token"
  const REFRESH_TOKEN_KEY := "driveLicense_refresh_token"
  const TOKEN_EXPIRY_KEY := "driveLicense_token_expiry"

  /** 90 hours in milliseconds. */
  const SESSION_DURATION_MS: nat := 90 * 60 * 60 * 1000

  const MS_PER_HOUR: nat := 60 * 60 * 1000
  const MS_PER_MINUTE: nat := 60 * 1000

  /** A JavaScript number as these functions produce it: an integer, or NaN. */
  datatype JsNumber = Num(n: int) | NaN

  /** `Math.floor(x / d)` for a non-negative count of milliseconds, NaN staying NaN. */
  function FloorDiv(x: JsNumber, d: nat): (r: JsNumber)
    requires d > 0
    requires x.Num? ==> x.n >= 0
    ensures r.NaN? <==> x.NaN?
    ensures r.Num? ==> 0 <= r.n * d <= x.n < (r.n + 1) * d
  {
    if x.NaN? then NaN else Num(x.n / d)
  }

  /** `x % d` for a non-negative count, NaN staying NaN. */
  function Mod(x: JsNumber, d: nat): (r: JsNumber)
    requires d > 0
    requires x.Num? ==> x.n >= 0
    ensures r.NaN? <==> x.NaN?
    ensures r.Num? ==> 0 <= r.n < d && FloorDiv(x, d).n * d + r.n == x.n
  {
    if x.NaN? then NaN else Num(x.n % d)
  }

  /** Whole hours, then whole minutes of the rest, bracket a count of milliseconds to the minute. */
  lemma HoursAndMinutes(ms: nat)
    ensures var h := ms / MS_PER_HOUR;
      var m := (ms % MS_PER_HOUR) / MS_PER_MINUTE;
      0 <= m < 60 && h * MS_PER_HOUR + m * MS_PER_MINUTE <= ms < h * MS_PER_HOUR + (m + 1) * MS_PER_MINUTE
  {
    var h := ms / MS_PER_HOUR;
    var rest := ms % MS_PER_HOUR;
    var m := rest / MS_PER_MINUTE;
    assert ms == h * MS_PER_HOUR + rest;
    assert rest == m * MS_PER_MINUTE + rest % MS_PER_MINUTE;
    assert m * MS_PER_MINUTE <= rest < (m + 1) * MS_PER_MINUTE;
    assert rest < 60 * MS_PER_MINUTE;
  }

  /** Whole hours and leftover minutes that bracket a count of milliseconds to the minute. */
  predicate SplitToMinute(hours: JsNumber, minutes: JsNumber, ms: JsNumber) {
    ms.Num? ==>
      hours.Num? && minutes.Num? && 0 <= minutes.n < 60
      && hours.n * MS_PER_HOUR + minutes.n * MS_PER_MINUTE <= ms.n
      < hours.n * MS_PER_HOUR + (minutes.n + 1) * MS_PER_MINUTE
  }

  /** The hours and minutes `getSessionInfo` computes bracket the remaining time to the minute. */
  lemma SplitRemaining(remaining: JsNumber)
    requires remaining.Num? ==> remaining.n >= 0
    ensures SplitToMinute(FloorDiv(remaining, MS_PER_HOUR), FloorDiv(Mod(remaining, MS_PER_HOUR), MS_PER_MINUTE), remaining)
  {
    if remaining.Num? {
      assert FloorDiv(remaining, MS_PER_HOUR) == Num(remaining.n / MS_PER_HOUR);
      assert FloorDiv(Mod(remaining, MS_PER_HOUR), MS_PER_MINUTE) == Num((remaining.n % MS_PER_HOUR) / MS_PER_MINUTE);
      HoursAndMinutes(remaining.n);
    }
  }

  datatype SessionInfo = SessionInfo(
    hasToken: bool, hasRefreshToken: bool, isExpired: bool,
    remainingHours: JsNumber, remainingMinutes: JsNumber, remainingMs: JsNumber)

  /** `!!v` for a stored string or null. */
  predicate Present(v: Option<string>) {
    v.Some? && v.value != ""
  }

  class LocalStorage {
    var items: map<string, string>
    /** False when every call into the storage throws. */
    var accessible: bool

    constructor (items: map<string, string>, accessible: bool)
      ensures this.items == items && this.accessible == accessible
    {
      this.items := items;
      this.accessible := accessible;
    }

    /** `localStorage.getItem(key)`, null for a missing key, and null from the `catch` when storage throws. */
    function GetItem(key: string): (v: Option<string>)
      reads this
      ensures !accessible ==> v.None?
      ensures accessible ==> (v.Some? <==> key in items)
      ensures v.Some? ==> v.value == items[key]
    {
      if accessible && key in items then Some(items[key]) else None
    }

    /** `getAccessToken`. */
    function AccessToken(): (v: Option<string>)
      reads this
      ensures v == GetItem(TOKEN_KEY)
    {
      GetItem(TOKEN_KEY)
    }

    /** `getRefreshToken`. */
    function RefreshToken(): (v: Option<string>)
      reads this
      ensures v == GetItem(REFRESH_TOKEN_KEY)
    {
      GetItem(REFRESH_TOKEN_KEY)
    }

    /**
     * `isTokenExpired`: expired when storage throws or holds no expiry (or an
     * empty one); otherwise expired once `now` reaches the stored time. A
     * stored value that `parseInt` reads as NaN compares false, so it is
     * never expired.
     */
    function IsTokenExpired(now: int): (expired: bool)
      reads this
      ensures !Present(GetItem(TOKEN_EXPIRY_KEY)) ==> expired
      ensures Present(GetItem(TOKEN_EXPIRY_KEY)) ==>
        var e := ParseIntJs(items[TOKEN_EXPIRY_KEY]);
        (expired <==> e.Some? && now >= e.value)
    {
      var stored := GetItem(TOKEN_EXPIRY_KEY);
      if !Present(stored) then true
      else
        match ParseIntJs(stored.value)
        case None => false
        case Some(expiry) => now >= expiry
    }

    /**
     * `getRemainingSessionTime`: 0 without a stored expiry, otherwise the
     * time left, never negative, and NaN when the stored value is not a
     * number (`Math.max(0, NaN)` is NaN).
     */
    function RemainingSessionTime(now: int): (r: JsNumber)
      reads this
      ensures r.Num? ==> r.n >= 0
      ensures !Present(GetItem(TOKEN_EXPIRY_KEY)) ==> r == Num(0)
      ensures Present(GetItem(TOKEN_EXPIRY_KEY)) ==>
        var e := ParseIntJs(items[TOKEN_EXPIRY_KEY]);
        (r.NaN? <==> e.None?) && (e.Some? ==> r.n == if e.value > now then e.value - now else 0)
    {
      var stored := GetItem(TOKEN_EXPIRY_KEY);
      if !Present(stored) then Num(0)
      else
        match ParseIntJs(stored.value)
        case None => NaN
        case Some(expiry) => Num(if expiry - now > 0 then expiry - now else 0)
    }

    /** `hasValidSession`: both tokens present and not expired. */
    function HasValidSession(now: int): (valid: bool)
      reads this
      ensures valid <==> Present(AccessToken()) && Present(RefreshToken()) && !IsTokenExpired(now)
    {
      var token := AccessToken();
      var refreshToken := RefreshToken();
      var expired := IsTokenExpired(now);
      Present(token) && Present(refreshToken) && !expired
    }

    /** `getSessionInfo`: the remaining time also split into whole hours and the minutes left over. */
    function Info(now: int): (info: SessionInfo)
      reads this
      ensures info.remainingMs == RemainingSessionTime(now)
      ensures info.isExpired == IsTokenExpired(now)
      ensures info.hasToken == Present(AccessToken()) && info.hasRefreshToken == Present(RefreshToken())
      ensures SplitToMinute(info.remainingHours, info.remainingMinutes, info.remainingMs)
      ensures info.remainingMs.NaN? ==> info.remainingHours.NaN? && info.remainingMinutes.NaN?
    {
      var remaining := RemainingSessionTime(now);
      var hours := FloorDiv(remaining, MS_PER_HOUR);
      var minutes := FloorDiv(Mod(remaining, MS_PER_HOUR), MS_PER_MINUTE);
      SplitRemaining(remaining);
      SessionInfo(Present(AccessToken()), Present(RefreshToken()), IsTokenExpired(now), hours, minutes, remaining)
    }

    /**
     * `saveTokens`: writes both tokens and the expiry `now + 90 h`; a storage
     * that throws is left as it was. Right after the save the session is
     * valid for exactly 90 hours (when both tokens are non-empty).
     */
    method SaveTokens(accessToken: string, refreshToken: string, now: nat)
      modifies this`items
      ensures accessible ==> items == old(items)[TOKEN_KEY := accessToken][REFRESH_TOKEN_KEY := refreshToken]
                                              [TOKEN_EXPIRY_KEY := NatToString(now + SESSION_DURATION_MS)]
      ensures !accessible ==> items == old(items)
      ensures accessible ==>
        RemainingSessionTime(now) == Num(SESSION_DURATION_MS) && IsTokenExpired(now + SESSION_DURATION_MS)
        && forall t :: t < now + SESSION_DURATION_MS ==> !IsTokenExpired(t)
      ensures accessible && accessToken != "" && refreshToken != "" ==> HasValidSession(now)
    {
      if accessible {
        var expiryTime := now + SESSION_DURATION_MS;
        items := items[TOKEN_KEY := accessToken];
        items := items[REFRESH_TOKEN_KEY := refreshToken];
        items := items[TOKEN_EXPIRY_KEY := NatToString(expiryTime)];
        ParseIntOfNumeral(NatToString(expiryTime));
        NatToStringRoundTrip(expiryTime);
      }
    }

    /** `clearTokens`: removes the three keys, leaving every other key; afterwards no session is valid. */
    method ClearTokens()
      modifies this`items
      ensures accessible ==> items == old(items) - {TOKEN_KEY, REFRESH_TOKEN_KEY, TOKEN_EXPIRY_KEY}
      ensures !accessible ==> items == old(items)
      ensures forall t :: !HasValidSession(t) && IsTokenExpired(t) && RemainingSessionTime(t) == Num(0)
    {
      if accessible {
        items := items - {TOKEN_KEY, REFRESH_TOKEN_KEY, TOKEN_EXPIRY_KEY};
      }
    }
  }
}
