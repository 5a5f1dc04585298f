/**
 * The helpers every PHP page loads: the session it starts, `base_url` (joining the configured
 * base URL and a path), and the CSRF token (`csrf_token`, `check_csrf`). Strings are byte
 * strings: each `char` stands for one byte, so `strlen` is the length.
 */
module PhpHelpers {
  import opened Wrappers
  import Text

  /** PHP's truth value of a string: `""` and `"0"` are false, every other string is true. */
  predicate Truthy(s: string) {
    s != "" && s != "0"
  }

  /** PHP's `empty()` on a session or request value that may be unset. */
  predicate Empty(v: Option<string>) {
    v.None? || !Truthy(v.value)
  }

  /** `rtrim(s, chars)`: `s` without the run of characters from `chars` at its end. */
  function RTrim(s: string, chars: set<char>): (r: string)
    ensures |r| <= |s| && r == s[..|r|]
    ensures forall i :: |r| <= i < |s| ==> s[i] in chars
    ensures r == [] || r[|r| - 1] !in chars
  {
    if s == [] || s[|s| - 1] !in chars then s else RTrim(s[..|s| - 1], chars)
  }

  /** `ltrim(s, chars)`: `s` without the run of characters from `chars` at its start. */
  function LTrim(s: string, chars: set<char>): (r: string)
    ensures |r| <= |s| && r == s[|s| - |r|..]
    ensures forall i :: 0 <= i < |s| - |r| ==> s[i] in chars
    ensures r == [] || r[0] !in chars
  {
    if s == [] || s[0] !in chars then s else LTrim(s[1..], chars)
  }

  /** The characters `trim()` removes by default: space, tab, newline, return, NUL, vertical tab. */
  predicate IsTrimChar(c: char) {
    c == ' ' || c == '\t' || c == '\n' || c == '\r' || c == '\0' || c == '\U{000B}'
  }

  /** The leading half of `trim(s)`: `s` without its leading run of trim characters. */
  function TrimLeft(s: string): (r: string)
    ensures |r| <= |s| && r == s[|s| - |r|..]
    ensures forall i :: 0 <= i < |s| - |r| ==> IsTrimChar(s[i])
    ensures r == [] || !IsTrimChar(r[0])
  {
    if s == [] || !IsTrimChar(s[0]) then s else TrimLeft(s[1..])
  }

  /** The trailing half of `trim(s)`: `s` without its trailing run of trim characters. */
  function TrimRight(s: string): (r: string)
    ensures |r| <= |s| && r == s[..|r|]
    ensures forall i :: |r| <= i < |s| ==> IsTrimChar(s[i])
    ensures r == [] || !IsTrimChar(r[|r| - 1])
  {
    if s == [] || !IsTrimChar(s[|s| - 1]) then s else TrimRight(s[..|s| - 1])
  }

  /**
   * `trim(s)`: the stretch of `s` left once the leading and the trailing runs of trim
   * characters are dropped; everything dropped is a trim character and the result neither
   * starts nor ends with one.
   */
  function Trim(s: string): (r: string)
    ensures var lead := |s| - |TrimLeft(s)|;
      && lead + |r| <= |s| && r == s[lead..lead + |r|]
      && (forall k :: 0 <= k < lead ==> IsTrimChar(s[k]))
      && (forall k :: lead + |r| <= k < |s| ==> IsTrimChar(s[k]))
    ensures r == [] || (!IsTrimChar(r[0]) && !IsTrimChar(r[|r| - 1]))
  {
    var t := TrimLeft(s);
    var r := TrimRight(t);
    Text.SliceOfSuffix(s, t, r);
    TrimmedTail(s, t, r);
    r
  }

  /** Trim characters ending a suffix `t` of `s` end `s` too. */
  lemma TrimmedTail(s: string, t: string, r: string)
    requires |t| <= |s| && t == s[|s| - |t|..] && |r| <= |t| && r == t[..|r|]
    requires forall i :: |r| <= i < |t| ==> IsTrimChar(t[i])
    ensures forall k :: |s| - |t| + |r| <= k < |s| ==> IsTrimChar(s[k])
  {
    forall k | |s| - |t| + |r| <= k < |s|
      ensures IsTrimChar(s[k])
    {
      assert s[k] == t[k - (|s| - |t|)];
    }
  }

  /** Trimming twice is trimming once. */
  lemma TrimIdempotent(s: string)
    ensures Trim(Trim(s)) == Trim(s)
  {
    var t := Trim(s);
    if t != [] {
      assert TrimLeft(t) == t;
      assert TrimRight(t) == t;
    }
  }

  const Slash: set<char> := {'/'}

  /**
   * `base_url($path)`: the configured base without its trailing slashes and the path
   * without its leading slashes, joined by one slash; when the stripped path is false to
   * PHP (empty or `"0"`) the stripped base alone.
   */
  function BaseUrl(configBase: string, path: string): (url: string)
    ensures var base := RTrim(configBase, Slash);
      |base| <= |url| && url[..|base|] == base
    ensures !Truthy(LTrim(path, Slash)) ==> url == RTrim(configBase, Slash)
  {
    var base := RTrim(configBase, Slash);
    var rest := LTrim(path, Slash);
    if Truthy(rest) then base + "/" + rest else base
  }

  /**
   * With a path that is true to PHP, the URL is the stripped base, one slash and the
   * stripped path: the character before the joining slash (if any) and the one after it
   * are not slashes.
   */
  lemma BaseUrlJoin(configBase: string, path: string)
    requires Truthy(LTrim(path, Slash))
    ensures var base, rest := RTrim(configBase, Slash), LTrim(path, Slash);
      && BaseUrl(configBase, path) == base + "/" + rest
      && BaseUrl(configBase, path)[|base|] == '/'
      && BaseUrl(configBase, path)[|base| + 1] != '/'
      && (base == [] || BaseUrl(configBase, path)[|base| - 1] != '/')
  {
  }

  /**
   * The path `"0"` (with or without leading slashes) is false to PHP, so it is dropped and
   * the URL is the base alone, the same as for the empty path.
   */
  lemma BaseUrlDropsZero(configBase: string)
    ensures BaseUrl(configBase, "0") == RTrim(configBase, Slash)
    ensures BaseUrl(configBase, "/0") == BaseUrl(configBase, "")
    ensures BaseUrl(configBase, "///") == RTrim(configBase, Slash)
  {
    assert "0"[0] !in Slash;
    assert LTrim("0", Slash) == "0";
    assert "/0"[0] in Slash && "/0"[1..] == "0";
    assert LTrim("/0", Slash) == "0";
    assert LTrim("", Slash) == "";
    assert "/"[0] in Slash && "/"[1..] == "";
    assert "//"[0] in Slash && "//"[1..] == "/";
    assert "///"[0] in Slash && "///"[1..] == "//";
    assert LTrim("///", Slash) == "";
  }

  /** Extra slashes at the end of the base or the start of the path change nothing. */
  lemma BaseUrlIgnoresExtraSlashes(configBase: string, path: string)
    ensures BaseUrl(configBase + "/", path) == BaseUrl(configBase, path)
    ensures BaseUrl(configBase, "/" + path) == BaseUrl(configBase, path)
  {
    assert (configBase + "/")[..|configBase|] == configBase;
    assert ("/" + path)[1..] == path;
  }

  /** A byte, as `random_bytes` yields them. */
  newtype byte = x: int | 0 <= x < 256

  /** The lower-case hex digit of `n`: the `n`-th character of `0123456789abcdef`. */
  function HexDigit(n: int): (c: char)
    requires 0 <= n < 16
    ensures c == "0123456789abcdef"[n]
  {
    if n < 10 then ('0' as int + n) as char else ('a' as int + n - 10) as char
  }

  /** `bin2hex`: two lower-case hex digits per byte, the high half first. */
  function Bin2Hex(bytes: seq<byte>): (hex: string)
    ensures |hex| == 2 * |bytes|
    ensures forall k :: 0 <= k < |bytes| ==>
      hex[2 * k] == HexDigit(bytes[k] as int / 16) && hex[2 * k + 1] == HexDigit(bytes[k] as int % 16)
  {
    if bytes == [] then []
    else [HexDigit(bytes[0] as int / 16), HexDigit(bytes[0] as int % 16)] + Bin2Hex(bytes[1..])
  }

  /** A fresh token is 64 hex digits, so PHP never finds it empty. */
  lemma FreshTokenTruthy(random: seq<byte>)
    requires |random| == 32
    ensures |Bin2Hex(random)| == 64 && Truthy(Bin2Hex(random))
  {
  }

  /** What `$_SESSION['user']` holds after a login. */
  datatype SessionUser = SessionUser(id: int, name: string, email: string, role: Role)

  /** The roles of the PHP user table. */
  datatype Role = Intern | Supervisor | Admin

  /** `in_array($role, ['admin','supervisor','intern'], true)`: the role a text names, if any. */
  function ParseRole(s: string): Option<Role> {
    if s == "intern" then Some(Intern)
    else if s == "supervisor" then Some(Supervisor)
    else if s == "admin" then Some(Admin)
    else None
  }

  /** Exactly the three role texts are accepted, each naming its own role. */
  lemma RoleTexts(s: string)
    ensures ParseRole(s) == Some(Intern) <==> s == "intern"
    ensures ParseRole(s) == Some(Supervisor) <==> s == "supervisor"
    ensures ParseRole(s) == Some(Admin) <==> s == "admin"
  {
  }

  /** The token `csrf_token()` returns for the stored value `stored` and fresh randomness `random`. */
  function TokenAfter(stored: Option<string>, random: seq<byte>): (token: string)
    ensures !Empty(stored) ==> token == stored.value
    ensures Empty(stored) ==> token == Bin2Hex(random)
  {
    if Empty(stored) then Bin2Hex(random) else stored.value
  }

  /**
   * `csrf_token()` is idempotent: once it has stored a token, later calls return that same
   * token whatever randomness they would have used.
   */
  lemma TokenStable(stored: Option<string>, first: seq<byte>, later: seq<byte>)
    requires |first| == 32
    ensures TokenAfter(Some(TokenAfter(stored, first)), later) == TokenAfter(stored, first)
  {
    if Empty(stored) {
      FreshTokenTruthy(first);
    }
  }

  /** The verdict of `check_csrf()`: carry on, or stop with status 419. */
  datatype CsrfVerdict = Pass | Reject419

  /**
   * `check_csrf()`: anything but a POST passes; a POST passes only when its `csrf_token` is
   * true to PHP and equal to the session's token (an unset session token compares as "").
   */
  function CheckCsrf(isPost: bool, posted: Option<string>, stored: Option<string>): (v: CsrfVerdict)
    ensures !isPost ==> v == Pass
    ensures isPost ==> (v == Pass <==> !Empty(posted) && posted.value == stored.GetOr(""))
  {
    if !isPost then Pass
    else
      var token := posted.GetOr("");
      if !Truthy(token) || stored.GetOr("") != token then Reject419 else Pass
  }

  /**
   * A POST without a token, with an empty one or with `"0"` is refused whatever the session
   * holds; before any token was issued every POST is refused; a POST echoing the issued
   * token passes.
   */
  lemma CsrfOutcomes(posted: Option<string>, stored: Option<string>, random: seq<byte>)
    requires |random| == 32
    ensures Empty(posted) ==> CheckCsrf(true, posted, stored) == Reject419
    ensures stored.None? ==> CheckCsrf(true, posted, stored) == Reject419
    ensures var token := TokenAfter(stored, random);
      CheckCsrf(true, Some(token), Some(token)) == Pass
  {
    if Empty(stored) {
      FreshTokenTruthy(random);
    }
  }

  /** The PHP session: the CSRF token and the logged-in user, each unset until written. */
  class Session {
    var csrfToken: Option<string>
    var user: Option<SessionUser>

    /** `session_start()` on a new session. */
    constructor ()
      ensures csrfToken == None && user == None
    {
      csrfToken, user := None, None;
    }

    /**
     * `csrf_token()`: stores a token made from `random` when the session's is empty to PHP,
     * and returns the stored token. `random` stands for `random_bytes(32)`.
     */
    method CsrfToken(random: seq<byte>) returns (token: string)
      requires |random| == 32
      modifies this`csrfToken
      ensures token == TokenAfter(old(csrfToken), random) && csrfToken == Some(token)
      ensures Truthy(token)
    {
      if Empty(csrfToken) {
        FreshTokenTruthy(random);
        csrfToken := Some(Bin2Hex(random));
      }
      token := csrfToken.value;
    }
  }
}
