/** `utils.js`: the authentication state kept in `localStorage`, the role
    guard, the headers and status handling of `fetchWithAuth`, the form
    validators, and the `truncate`, `clamp` and `getRelativeTime` helpers.
    `localStorage`, the clock and `fetch` are inputs: the stored record,
    the elapsed milliseconds and the HTTP status and body. */
module Utils {
  import opened Common
  import opened Text

  const CustomerRole := "ROLE_CUSTOMER"
  const OwnerRole := "ROLE_OWNER"

  // ---- authentication state -------------------------------------------

  /** The `token`, `username` and `role` items of `localStorage`; an
      absent item reads as `null`. */
  datatype AuthRecord = AuthRecord(token: Option<string>, username: Option<string>, role: Option<string>)

  /** What `localStorage.clear()` leaves. */
  const SignedOut := AuthRecord(None, None, None)

  /** The object `getAuthState()` returns. */
  datatype AuthState = AuthState(token: Option<string>, username: Option<string>, role: Option<string>,
                                 isAuthenticated: bool, isCustomer: bool, isOwner: bool)

  /** JavaScript truthiness of a stored string: present and non-empty. */
  predicate Truthy(s: Option<string>) {
    s.Some? && s.value != ""
  }

  /** `getAuthState()`. */
  function GetAuthState(a: AuthRecord): (r: AuthState)
    ensures r.token == a.token && r.username == a.username && r.role == a.role
    ensures r.isAuthenticated <==> a.token.Some? && |a.token.value| > 0
    ensures r.isCustomer <==> a.role == Some("ROLE_CUSTOMER")
    ensures r.isOwner <==> a.role == Some("ROLE_OWNER")
    ensures !(r.isCustomer && r.isOwner)
  {
    AuthState(a.token, a.username, a.role, Truthy(a.token),
              a.role == Some(CustomerRole), a.role == Some(OwnerRole))
  }

  /** Where a page guard leaves the browser. */
  datatype Guard = Stay | Redirect(path: string)

  /** `requireRole(requiredRole)`: stays (returns true) exactly for a
      signed-in user holding that role, and otherwise sends the browser
      home (returns false). */
  function RequireRole(a: AuthRecord, requiredRole: string): (r: Guard)
    ensures r == Stay <==> a.token.Some? && |a.token.value| > 0 && a.role == Some(requiredRole)
    ensures r != Stay ==> r == Redirect("/")
  {
    var auth := GetAuthState(a);
    if !auth.isAuthenticated || auth.role != Some(requiredRole) then Redirect("/") else Stay
  }

  /** The customer and owner guards agree with the flags of `getAuthState`,
      and no stored record passes both. */
  lemma RequireRoleFlags(a: AuthRecord)
    ensures RequireRole(a, CustomerRole) == Stay <==>
              GetAuthState(a).isAuthenticated && GetAuthState(a).isCustomer
    ensures RequireRole(a, OwnerRole) == Stay <==>
              GetAuthState(a).isAuthenticated && GetAuthState(a).isOwner
    ensures !(RequireRole(a, CustomerRole) == Stay && RequireRole(a, OwnerRole) == Stay)
  {
  }

  // ---- fetchWithAuth --------------------------------------------------

  /** A header object, by header name. */
  type Headers = map<string, string>

  /** The `headers` of the request `fetchWithAuth` sends: the JSON content
      type, the bearer token when one is stored, then the caller's
      headers, which win. */
  function RequestHeaders(token: Option<string>, supplied: Headers): (h: Headers)
    ensures forall k :: k in supplied ==> k in h && h[k] == supplied[k]
    ensures "Content-Type" in h
    ensures "Content-Type" !in supplied ==> h["Content-Type"] == "application/json"
    ensures "Authorization" in h <==> "Authorization" in supplied || Truthy(token)
    ensures "Authorization" !in supplied && Truthy(token) ==> h["Authorization"] == "Bearer " + token.value
    ensures forall k :: k in h ==> k in supplied || k == "Content-Type" || k == "Authorization"
  {
    var defaults := map["Content-Type" := "application/json"];
    var withToken := if Truthy(token) then defaults["Authorization" := "Bearer " + token.value] else defaults;
    withToken + supplied
  }

  /** How the request itself ended: the network failed with a message, or
      a response arrived with a status, a body text and whether that text
      is JSON (so that `response.json()` resolves). */
  datatype Exchange = NetworkFailure(message: string) | Response(status: int, body: string, json: bool)

  /** What `fetchWithAuth` gives its caller: `null` after a 401, a thrown
      `Error` with its message, the `SyntaxError` that `response.json()`
      throws on an ok body that is not JSON (its message is the engine's),
      or the parsed body, represented by its text. */
  datatype Reply = Null | Thrown(message: string) | NotJson | Body(text: string)

  /** `response.ok`. */
  predicate IsOk(status: int) {
    200 <= status <= 299
  }

  /** The status handling of `fetchWithAuth`. Every error is rethrown by
      its `catch`, so the caller sees it thrown. */
  function HandleResponse(x: Exchange): (r: Reply)
    ensures r == Null <==> x.Response? && x.status == 401
    ensures r.Body? <==> x.Response? && IsOk(x.status) && x.json
    ensures r == NotJson <==> x.Response? && IsOk(x.status) && !x.json
    ensures x.Response? && x.status != 401 && !IsOk(x.status) ==>
              r == Thrown(if x.body != "" then x.body
                          else "Request failed with status " + DecimalString(x.status))
    ensures x.NetworkFailure? ==> r == Thrown(x.message)
    ensures r.Body? ==> r.text == x.body
  {
    match x
    case NetworkFailure(m) => Thrown(m)
    case Response(status, body, json) =>
      if status == 401 then Null
      else if !IsOk(status) then
        Thrown(if body != "" then body else "Request failed with status " + DecimalString(status))
      else if !json then NotJson
      else Body(body)
  }

  /** The stored record after the call: a 401 clears it, anything else
      leaves it. */
  function StorageAfter(a: AuthRecord, x: Exchange): (r: AuthRecord)
    ensures HandleResponse(x) == Null ==> r == SignedOut && !GetAuthState(r).isAuthenticated
    ensures HandleResponse(x) != Null ==> r == a
  {
    if x.Response? && x.status == 401 then SignedOut else a
  }

  /** Where the call sends the browser (`window.location.href`): to the
      login page after a 401, which is also when the caller gets `null`;
      nowhere otherwise. */
  function LocationAfter(x: Exchange): (r: Option<string>)
    ensures r.Some? <==> HandleResponse(x) == Null
    ensures r.Some? ==> r.value == "/login"
  {
    if x.Response? && x.status == 401 then Some("/login") else None
  }

  // ---- validators -----------------------------------------------------

  /** A character the class `[^\s@]` admits. */
  predicate Plain(c: char) {
    !IsSpace(c) && c != '@'
  }

  /** Every element of `s` satisfies `p`. */
  predicate AllOf<T>(s: seq<T>, p: T -> bool) {
    forall i :: 0 <= i < |s| ==> p(s[i])
  }

  /** `s` is a non-empty run of `p` elements, `at`, another run, `dot` and
      a third run: the language of `/^[^\s@]+@[^\s@]+\.[^\s@]+$/` when `p`
      is `Plain`. */
  ghost predicate Shaped<T(!new)>(s: seq<T>, p: T -> bool, at: T, dot: T) {
    exists a: seq<T>, b: seq<T>, c: seq<T> ::
      && |a| > 0 && |b| > 0 && |c| > 0
      && AllOf(a, p) && AllOf(b, p) && AllOf(c, p)
      && s == a + [at] + b + [dot] + c
  }

  /** `s[i]` is `at` after a non-empty prefix, both sides are made of `p`
      elements, and a `dot` sits strictly inside the part after `at`. */
  predicate SplitsAt<T(==)>(s: seq<T>, i: int, p: T -> bool, at: T, dot: T) {
    && 1 <= i < |s| && s[i] == at && AllOf(s[..i], p) && AllOf(s[i + 1..], p)
    && exists j | i + 2 <= j < |s| - 1 :: s[j] == dot
  }

  lemma SplitsAtShaped<T(!new)>(s: seq<T>, i: int, p: T -> bool, at: T, dot: T)
    requires SplitsAt(s, i, p, at, dot)
    ensures Shaped(s, p, at, dot)
  {
    var j :| i + 2 <= j < |s| - 1 && s[j] == dot;
    var d := s[i + 1..];
    var a, b, c := s[..i], s[i + 1..j], s[j + 1..];
    assert AllOf(b, p) by {
      assert forall k :: 0 <= k < |b| ==> b[k] == d[k];
    }
    assert AllOf(c, p) by {
      assert forall k :: 0 <= k < |c| ==> c[k] == d[j - i + k];
    }
    assert s == a + [at] + b + [dot] + c;
    assert |a| > 0 && |b| > 0 && |c| > 0 && AllOf(a, p) && AllOf(b, p) && AllOf(c, p)
           && s == a + [at] + b + [dot] + c;
  }

  lemma ShapedSplitsAt<T(!new)>(s: seq<T>, p: T -> bool, at: T, dot: T) returns (i: int)
    requires Shaped(s, p, at, dot) && p(dot)
    ensures SplitsAt(s, i, p, at, dot)
  {
    var a: seq<T>, b: seq<T>, c: seq<T> :| && |a| > 0 && |b| > 0 && |c| > 0
                                           && AllOf(a, p) && AllOf(b, p) && AllOf(c, p)
                                           && s == a + [at] + b + [dot] + c;
    i := |a|;
    assert s[..i] == a && s[i] == at;
    var d := s[i + 1..];
    assert d == b + [dot] + c;
    forall k | 0 <= k < |d| ensures p(d[k]) {
      if k < |b| {
        assert d[k] == b[k];
      } else if k > |b| {
        assert d[k] == c[k - |b| - 1];
      }
    }
    assert s[i + 1 + |b|] == dot;
  }

  /** The language of the email regular expression. */
  ghost predicate EmailPattern(s: string) {
    Shaped(s, Plain, '@', '.')
  }

  /** `isValidEmail(email)`, as a scan: an `@` after a non-empty local
      part, no white space or second `@` anywhere, and a dot strictly
      inside the domain. */
  predicate IsValidEmail(s: string) {
    exists i | 1 <= i < |s| :: SplitsAt(s, i, Plain, '@', '.')
  }

  /** The scan accepts exactly the strings the regular expression matches. */
  lemma IsValidEmailMatchesPattern(s: string)
    ensures IsValidEmail(s) <==> EmailPattern(s)
  {
    if IsValidEmail(s) {
      var i :| 1 <= i < |s| && SplitsAt(s, i, Plain, '@', '.');
      SplitsAtShaped(s, i, Plain, '@', '.');
    }
    if EmailPattern(s) {
      assert Plain('.');
      var i := ShapedSplitsAt(s, Plain, '@', '.');
    }
  }

  /** The `{ isValid, message }` object of the validators. */
  datatype Validation = Validation(isValid: bool, message: string)

  /** `validatePassword(password)`. */
  function ValidatePassword(password: string): (r: Validation)
    ensures !r.isValid <==> password == ""
    ensures r.message == (if r.isValid then "Password is valid" else "Please enter your password!")
  {
    if password == "" then Validation(false, "Please enter your password!")
    else Validation(true, "Password is valid")
  }

  const UsernameTooShort := "Username must be at least 3 characters long"
  const UsernameTooLong := "Username must be less than 50 characters"

  /** `validateUsername(username)`; `username.length` counts UTF-16 code
      units. */
  function ValidateUsername(username: JsString): (r: Validation)
    ensures r.isValid <==> 3 <= |username| <= 50
    ensures |username| < 3 ==> r.message == UsernameTooShort
    ensures |username| > 50 ==> r.message == UsernameTooLong
    ensures r.isValid ==> r.message == "Username is valid"
  {
    if username == [] || |username| < 3 then Validation(false, UsernameTooShort)
    else if |username| > 50 then Validation(false, UsernameTooLong)
    else Validation(true, "Username is valid")
  }

  /** For text of the Basic Multilingual Plane the code units are the
      characters, so the bounds are 3 and 50 characters. */
  lemma ValidateUsernameBmp(s: string)
    requires InBmp(s)
    ensures ValidateUsername(Utf16(s)).isValid <==> 3 <= |s| <= 50
  {
  }

  /** Two supplementary characters are four code units, which the
      validator accepts although the text has only two characters. */
  lemma ValidateUsernameCountsCodeUnits()
    ensures ValidateUsername(Utf16("\U{1F600}\U{1F600}")).isValid
  {
    assert |Utf16("\U{1F600}\U{1F600}")| == 4 by {
      assert "\U{1F600}\U{1F600}"[1..] == "\U{1F600}";
      assert "\U{1F600}"[1..] == "";
    }
  }

  // ---- helpers ----------------------------------------------------------

  /** The code units of "...". */
  const Ellipsis: JsString := [46, 46, 46]

  /** `truncate(str, maxLength)`, in code units; `substring` reads a
      negative end as 0, and may cut a surrogate pair in two. */
  function Truncate(str: JsString, maxLength: int): (r: JsString)
    ensures |str| <= maxLength ==> r == str
    ensures |str| > maxLength && maxLength >= 3 ==>
              |r| == maxLength && r == str[..maxLength - 3] + Ellipsis
    ensures |str| > maxLength && maxLength < 3 ==> r == Ellipsis
  {
    if |str| <= maxLength then str
    else str[..if maxLength >= 3 then maxLength - 3 else 0] + Ellipsis
  }

  /** Truncating twice to the same length changes nothing more. */
  lemma TruncateIdempotent(str: JsString, maxLength: int)
    ensures Truncate(Truncate(str, maxLength), maxLength) == Truncate(str, maxLength)
  {
  }

  /** Four supplementary characters are eight code units: cut to 5, the
      first character survives whole and the ellipsis follows. */
  lemma TruncateCountsCodeUnits()
    ensures Truncate(Utf16("\U{1F600}\U{1F600}\U{1F600}\U{1F600}"), 5) == Utf16("\U{1F600}...")
  {
    var e := Utf16Char('\U{1F600}');
    assert Utf16("\U{1F600}\U{1F600}\U{1F600}\U{1F600}") == e + e + e + e by {
      assert "\U{1F600}\U{1F600}\U{1F600}\U{1F600}"[1..] == "\U{1F600}\U{1F600}\U{1F600}";
      assert "\U{1F600}\U{1F600}\U{1F600}"[1..] == "\U{1F600}\U{1F600}";
      assert "\U{1F600}\U{1F600}"[1..] == "\U{1F600}";
      assert "\U{1F600}"[1..] == "";
    }
    assert Utf16("\U{1F600}...") == e + Ellipsis by {
      assert "\U{1F600}..."[1..] == "...";
      assert "..."[1..] == "..";
      assert ".."[1..] == ".";
      assert "."[1..] == "";
    }
  }

  /** `clamp(value, min, max)`: `Math.min(Math.max(value, min), max)`. */
  function Clamp(value: int, lo: int, hi: int): (r: int)
    ensures lo <= hi ==> lo <= r <= hi
    ensures lo <= value <= hi ==> r == value
    ensures lo > hi ==> r == hi
  {
    var raised := if value > lo then value else lo;
    if raised < hi then raised else hi
  }

  lemma ClampIdempotent(value: int, lo: int, hi: int)
    ensures Clamp(Clamp(value, lo, hi), lo, hi) == Clamp(value, lo, hi)
  {
  }

  /** "N unit ago", singular exactly when N is 1. */
  function Ago(n: int, unit: string): string {
    DecimalString(n) + " " + unit + (if n > 1 then "s" else "") + " ago"
  }

  const MinuteMs := 60000
  const HourMs := 3600000
  const DayMs := 86400000

  /** `getRelativeTime(date)`, given the milliseconds from `date` to now
      and what `formatDate(date)` would return. JavaScript's
      `Math.floor` of a quotient by a positive number is Dafny's `/`. */
  function RelativeTime(diffMs: int, formatted: string): string {
    var diffMins := diffMs / 60000;
    var diffHours := diffMins / 60;
    var diffDays := diffHours / 24;
    if diffMins < 1 then "Just now"
    else if diffMins < 60 then Ago(diffMins, "minute")
    else if diffHours < 24 then Ago(diffHours, "hour")
    else if diffDays < 7 then Ago(diffDays, "day")
    else formatted
  }

  /** Flooring whole minutes to hours floors the milliseconds directly. */
  lemma HoursFromMinutes(ms: int)
    ensures ms / MinuteMs / 60 == ms / HourMs
  {
  }

  /** Flooring whole hours to days floors the milliseconds directly. */
  lemma DaysFromHours(ms: int)
    ensures ms / HourMs / 24 == ms / DayMs
  {
  }

  /** The buckets of `getRelativeTime`, by elapsed milliseconds: under a
      minute (or in the future) "Just now"; then whole minutes, hours or
      days, floored; from a week on the formatted date. */
  lemma RelativeTimeBuckets(diffMs: int, formatted: string)
    ensures diffMs < MinuteMs ==> RelativeTime(diffMs, formatted) == "Just now"
    ensures MinuteMs <= diffMs < HourMs ==>
              RelativeTime(diffMs, formatted) == Ago(diffMs / MinuteMs, "minute") && 1 <= diffMs / MinuteMs < 60
    ensures HourMs <= diffMs < DayMs ==>
              RelativeTime(diffMs, formatted) == Ago(diffMs / HourMs, "hour") && 1 <= diffMs / HourMs < 24
    ensures DayMs <= diffMs < 7 * DayMs ==>
              RelativeTime(diffMs, formatted) == Ago(diffMs / DayMs, "day") && 1 <= diffMs / DayMs < 7
    ensures 7 * DayMs <= diffMs ==> RelativeTime(diffMs, formatted) == formatted
  {
    HoursFromMinutes(diffMs);
    DaysFromHours(diffMs);
  }

  /** The unit is plural exactly when the count is not 1. */
  lemma AgoPlural(n: int, unit: string)
    requires n >= 1
    ensures Ago(n, unit) == DecimalString(n) + " " + unit + (if n == 1 then "" else "s") + " ago"
  {
  }
}
