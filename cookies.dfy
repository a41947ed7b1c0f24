/** The session storage of frontend/ZotRide/src/services/api.ts: cookieUtils
    reads and writes `document.cookie`, the axios interceptors attach the JWT and
    clear the session on a 401, and tokenManager stores the token and the user.

    The browser side of `document.cookie` is the class Browser: reading it gives
    the cookie-string of section 5.4 of RFC 6265 (name=value pairs joined by
    "; ", oldest first, every cookie here having path "/"), and writing a
    Set-Cookie text stores the pair, replacing a cookie of the same name in its
    place, or removes that cookie when the expiry is not in the future (section
    5.3 of RFC 6265). Instants are milliseconds. */
module Cookies {
  import opened Common
  import Auth

  datatype Cookie = Cookie(name: string, value: string)

  /** A name the client can store and read back: not empty, no leading space, no
      ';' and no '='. Values hold no ';' and no space (the client stores JWTs and
      encodeURIComponent output only). */
  predicate NameOk(name: string)
  {
    name != "" && name[0] != ' ' && ';' !in name && '=' !in name
  }

  predicate CookieOk(c: Cookie)
  {
    NameOk(c.name) && ';' !in c.value && ' ' !in c.value
  }

  /** What the browser holds: well-formed cookies, one per name. */
  predicate JarOk(jar: seq<Cookie>)
  {
    (forall i :: 0 <= i < |jar| ==> CookieOk(jar[i]))
    && (forall i, j :: 0 <= i < j < |jar| ==> jar[i].name != jar[j].name)
  }

  function Pair(c: Cookie): string
  {
    c.name + "=" + c.value
  }

  /** Reading `document.cookie`. */
  function Render(jar: seq<Cookie>): string
  {
    if jar == [] then ""
    else if |jar| == 1 then Pair(jar[0])
    else Pair(jar[0]) + "; " + Render(jar[1..])
  }

  /** The value of the cookie called `name`, if the jar holds one. */
  function Find(jar: seq<Cookie>, name: string): (v: Option<string>)
    ensures v.Some? <==> exists i :: 0 <= i < |jar| && jar[i].name == name
  {
    if jar == [] then None
    else if jar[0].name == name then Some(jar[0].value)
    else Find(jar[1..], name)
  }

  // ---------------------------------------------------------------- cookieUtils.get

  /** `while (c.charAt(0) === ' ') c = c.substring(1, c.length)`, as a function. */
  function LeadingSpacesStripped(c: string): (r: string)
    ensures r == [] || r[0] != ' '
    ensures |r| <= |c| && r == c[|c| - |r|..]
  {
    if c != [] && c[0] == ' ' then LeadingSpacesStripped(c[1..]) else c
  }

  /** What cookieUtils.get finds among the `;`-separated entries: the rest of the
      first entry that, once its leading spaces are gone, starts with `nameEQ`
      (`indexOf(nameEQ) === 0`). */
  function Lookup(entries: seq<string>, nameEQ: string): Option<string>
  {
    if entries == [] then None
    else
      var c := LeadingSpacesStripped(entries[0]);
      if StartsWith(c, nameEQ) then Some(c[|nameEQ|..]) else Lookup(entries[1..], nameEQ)
  }

  /** cookieUtils.get, with its two loops. */
  method CookieGet(cookie: string, name: string) returns (r: Option<string>)
    ensures r == Lookup(SplitOn(cookie, ';'), name + "=")
  {
    var nameEQ := name + "=";
    var ca := SplitOn(cookie, ';');
    var i := 0;
    while i < |ca|
      invariant 0 <= i <= |ca|
      invariant Lookup(ca, nameEQ) == Lookup(ca[i..], nameEQ)
    {
      var c := StripLeadingSpaces(ca[i]);
      assert ca[i..][0] == ca[i] && ca[i..][1..] == ca[i + 1..];
      if StartsWith(c, nameEQ) {
        return Some(c[|nameEQ|..]);
      }
      i := i + 1;
    }
    return None;
  }

  /** The inner loop of cookieUtils.get. */
  method StripLeadingSpaces(entry: string) returns (c: string)
    ensures c == LeadingSpacesStripped(entry)
  {
    c := entry;
    while |c| > 0 && c[0] == ' '
      invariant LeadingSpacesStripped(c) == LeadingSpacesStripped(entry)
    {
      c := c[1..];
    }
  }

  /** Only the exact name matches: the pair of a cookie starts with `name=`
      exactly when the cookie is called `name`. */
  lemma PairStartsWith(c: Cookie, name: string)
    requires '=' !in c.name && '=' !in name
    ensures StartsWith(Pair(c), name + "=") <==> c.name == name
  {
    var p, k := Pair(c), |name|;
    if |c.name| < k {
      assert p[|c.name|] == '=';
      assert (name + "=")[|c.name|] == name[|c.name|];
    } else if |c.name| == k {
      assert p[..k] == c.name;
      if StartsWith(p, name + "=") {
        assert p[..k] == p[..k + 1][..k] == (name + "=")[..k] == name;
      }
    } else {
      assert p[k] == c.name[k] && c.name[k] in c.name;
      assert (name + "=")[k] == '=';
    }
  }

  /** The entry after a "; " separator keeps its leading space, which the lookup
      strips again. */
  lemma LookupSkipsSpace(s: string, nameEQ: string)
    ensures Lookup(SplitOn(" " + s, ';'), nameEQ) == Lookup(SplitOn(s, ';'), nameEQ)
  {
    var rest := SplitOn(s, ';');
    assert (" " + s)[1..] == s;
    assert SplitOn(" " + s, ';') == [" " + rest[0]] + rest[1..];
    assert (" " + rest[0])[1..] == rest[0];
  }

  /** Reading back: in the cookie-string of a well-formed jar, cookieUtils.get
      finds exactly the value the jar holds under that name, and nothing for a
      name it does not hold. */
  lemma {:induction false} LookupRendered(jar: seq<Cookie>, name: string)
    requires JarOk(jar) && NameOk(name)
    ensures Lookup(SplitOn(Render(jar), ';'), name + "=") == Find(jar, name)
    decreases |jar|
  {
    if jar == [] {
      assert SplitOn("", ';') == [""];
    } else {
      var c := jar[0];
      assert ';' !in Pair(c) by {
        assert forall k :: 0 <= k < |Pair(c)| ==> Pair(c)[k] == (if k < |c.name| then c.name[k]
          else if k == |c.name| then '=' else c.value[k - |c.name| - 1]);
      }
      assert Pair(c) != [] && Pair(c)[0] == c.name[0];
      PairStartsWith(c, name);
      if c.name == name {
        assert Pair(c) == (name + "=") + c.value;
      }
      assert JarOk(jar[1..]) by {
        forall i, j | 0 <= i < j < |jar[1..]| ensures jar[1..][i].name != jar[1..][j].name {
          assert jar[1..][i] == jar[i + 1] && jar[1..][j] == jar[j + 1];
        }
      }
      if |jar| == 1 {
        SplitNoSeparator(Pair(c), ';');
      } else {
        var tail := Render(jar[1..]);
        assert Render(jar) == Pair(c) + [';'] + (" " + tail);
        SplitAtFirst(Pair(c), ';', " " + tail);
        LookupSkipsSpace(tail, name + "=");
        LookupRendered(jar[1..], name);
      }
    }
  }

  // ---------------------------------------------------------------- what the browser does with a write

  /** Storing a cookie: a cookie of the same name is replaced in its place,
      otherwise the new one goes last. */
  function Upsert(jar: seq<Cookie>, name: string, value: string): (r: seq<Cookie>)
    ensures |r| == |jar| || |r| == |jar| + 1
  {
    if jar == [] then [Cookie(name, value)]
    else if jar[0].name == name then [Cookie(name, value)] + jar[1..]
    else [jar[0]] + Upsert(jar[1..], name, value)
  }

  /** Expiring a cookie: it leaves the jar. */
  function Remove(jar: seq<Cookie>, name: string): (r: seq<Cookie>)
    ensures |r| <= |jar|
    ensures forall i :: 0 <= i < |r| ==> r[i] in jar && r[i].name != name
  {
    if jar == [] then []
    else if jar[0].name == name then Remove(jar[1..], name)
    else [jar[0]] + Remove(jar[1..], name)
  }

  lemma {:induction false} UpsertFind(jar: seq<Cookie>, name: string, value: string, other: string)
    ensures Find(Upsert(jar, name, value), name) == Some(value)
    ensures other != name ==> Find(Upsert(jar, name, value), other) == Find(jar, other)
    decreases |jar|
  {
    if jar != [] && jar[0].name != name {
      UpsertFind(jar[1..], name, value, other);
    }
  }

  lemma {:induction false} RemoveFind(jar: seq<Cookie>, name: string, other: string)
    ensures Find(Remove(jar, name), name) == None
    ensures other != name ==> Find(Remove(jar, name), other) == Find(jar, other)
    decreases |jar|
  {
    if jar != [] {
      RemoveFind(jar[1..], name, other);
    }
  }

  lemma {:induction false} UpsertKeepsJarOk(jar: seq<Cookie>, name: string, value: string)
    requires JarOk(jar) && CookieOk(Cookie(name, value))
    ensures JarOk(Upsert(jar, name, value))
    decreases |jar|
  {
    if jar != [] && jar[0].name != name {
      var rest := jar[1..];
      assert JarOk(rest) by {
        forall i, j | 0 <= i < j < |rest| ensures rest[i].name != rest[j].name {
          assert rest[i] == jar[i + 1] && rest[j] == jar[j + 1];
        }
      }
      UpsertKeepsJarOk(rest, name, value);
      var u := Upsert(rest, name, value);
      UpsertNames(rest, name, value);
      forall j | 0 <= j < |u| ensures jar[0].name != u[j].name {
        if u[j].name != name {
          var k :| 0 <= k < |rest| && rest[k].name == u[j].name;
          assert rest[k] == jar[k + 1];
        }
      }
      var r := [jar[0]] + u;
      forall i, j | 0 <= i < j < |r| ensures r[i].name != r[j].name {
        if i == 0 {
          assert r[j] == u[j - 1];
        } else {
          assert r[i] == u[i - 1] && r[j] == u[j - 1];
        }
      }
    } else if jar != [] {
      var r := Upsert(jar, name, value);
      forall i, j | 0 <= i < j < |r| ensures r[i].name != r[j].name {
        assert r[j] == jar[j];
        if i > 0 {
          assert r[i] == jar[i];
        }
      }
    }
  }

  lemma {:induction false} UpsertNames(jar: seq<Cookie>, name: string, value: string)
    ensures forall j :: 0 <= j < |Upsert(jar, name, value)| ==>
      Upsert(jar, name, value)[j].name == name || exists k :: 0 <= k < |jar| && jar[k].name == Upsert(jar, name, value)[j].name
    decreases |jar|
  {
    if jar != [] && jar[0].name != name {
      UpsertNames(jar[1..], name, value);
      var u := Upsert(jar, name, value);
      forall j | 0 <= j < |u| && u[j].name != name
        ensures exists k :: 0 <= k < |jar| && jar[k].name == u[j].name
      {
        if j > 0 {
          var k :| 0 <= k < |jar[1..]| && jar[1..][k].name == u[j].name;
          assert jar[k + 1].name == u[j].name;
        } else {
          assert jar[0].name == u[j].name;
        }
      }
    } else if jar != [] {
      var u := Upsert(jar, name, value);
      forall j | 0 <= j < |u| && u[j].name != name
        ensures exists k :: 0 <= k < |jar| && jar[k].name == u[j].name
      {
        assert u[j] == jar[j];
      }
    }
  }

  lemma {:induction false} RemoveKeepsJarOk(jar: seq<Cookie>, name: string)
    requires JarOk(jar)
    ensures JarOk(Remove(jar, name))
    ensures forall c :: c in Remove(jar, name) ==> c in jar
    decreases |jar|
  {
    if jar != [] {
      var rest := jar[1..];
      assert JarOk(rest) by {
        forall i, j | 0 <= i < j < |rest| ensures rest[i].name != rest[j].name {
          assert rest[i] == jar[i + 1] && rest[j] == jar[j + 1];
        }
      }
      RemoveKeepsJarOk(rest, name);
      if jar[0].name != name {
        var u := Remove(rest, name);
        var r := [jar[0]] + u;
        forall i, j | 0 <= i < j < |r| ensures r[i].name != r[j].name {
          if i == 0 {
            assert r[j] == u[j - 1] && u[j - 1] in rest;
            var k :| 0 <= k < |rest| && rest[k] == u[j - 1];
            assert rest[k] == jar[k + 1];
          } else {
            assert r[i] == u[i - 1] && r[j] == u[j - 1];
          }
        }
      }
    }
  }

  // ---------------------------------------------------------------- the Set-Cookie texts

  const MILLIS_PER_DAY := 24 * 60 * 60 * 1000
  const EPOCH_UTC := "Thu, 01 Jan 1970 00:00:00 UTC"

  /** What cookieUtils.set writes; `expires` is the expiry's toUTCString(). */
  function SetCookieText(name: string, value: string, expires: string): string
  {
    name + "=" + value + ";expires=" + expires + ";path=/;SameSite=Lax"
  }

  /** What cookieUtils.delete writes: an empty value that expired at the epoch. */
  function DeleteCookieText(name: string): string
  {
    name + "=;expires=" + EPOCH_UTC + ";path=/;"
  }

  /** The pair a browser reads from a set text is the part before the first ';'
      (section 5.2 of RFC 6265): the name and the value written; the attributes
      follow it. */
  lemma SetCookiePair(name: string, value: string, expires: string)
    requires ';' !in name && ';' !in value
    ensures SplitOn(SetCookieText(name, value, expires), ';')[0] == name + "=" + value
    ensures EndsWith(SetCookieText(name, value, expires), ";path=/;SameSite=Lax")
  {
    var pair := name + "=" + value;
    var attributes := "expires=" + expires + ";path=/;SameSite=Lax";
    assert ';' !in pair;
    assert SetCookieText(name, value, expires) == pair + [';'] + attributes;
    SplitAtFirst(pair, ';', attributes);
  }

  /** The pair read from a delete text is the name with an empty value, and the
      expiry written is the epoch. */
  lemma DeleteCookiePair(name: string)
    requires ';' !in name
    ensures SplitOn(DeleteCookieText(name), ';')[0] == name + "="
    ensures StartsWith(DeleteCookieText(name), name + "=;expires=" + EPOCH_UTC)
  {
    var pair := name + "=";
    var attributes := "expires=" + EPOCH_UTC + ";path=/;";
    assert ';' !in pair;
    assert DeleteCookieText(name) == pair + [';'] + attributes;
    SplitAtFirst(pair, ';', attributes);
  }

  // ---------------------------------------------------------------- the browser

  const JWT_COOKIE := "jwt_token"
  const USER_COOKIE := "user"

  /** The session a browser tab holds. */
  class Browser {
    var jar: seq<Cookie>

    predicate Valid()
      reads this
    {
      JarOk(jar)
    }

    constructor ()
      ensures Valid() && jar == []
    {
      jar := [];
    }

    /** `document.cookie`, read. */
    function DocumentCookie(): string
      reads this
    {
      Render(jar)
    }

    /** cookieUtils.get: the value stored under `name`. */
    method Get(name: string) returns (r: Option<string>)
      requires Valid() && NameOk(name)
      ensures r == Find(jar, name)
    {
      r := CookieGet(DocumentCookie(), name);
      LookupRendered(jar, name);
    }

    /** cookieUtils.set: the cookie expires `days` days after `now`, so a positive
        count stores it and any other count removes it. `utc` is toUTCString. */
    method Set(name: string, value: string, days: int, now: int, utc: int -> string) returns (written: string)
      requires Valid() && CookieOk(Cookie(name, value))
      modifies this
      ensures Valid()
      ensures written == SetCookieText(name, value, utc(now + days * MILLIS_PER_DAY))
      ensures jar == if days > 0 then Upsert(old(jar), name, value) else Remove(old(jar), name)
    {
      var expires := now + days * MILLIS_PER_DAY;
      written := SetCookieText(name, value, utc(expires));
      if expires > now {
        UpsertKeepsJarOk(jar, name, value);
        jar := Upsert(jar, name, value);
      } else {
        RemoveKeepsJarOk(jar, name);
        jar := Remove(jar, name);
      }
    }

    /** cookieUtils.delete. */
    method Delete(name: string) returns (written: string)
      requires Valid()
      modifies this
      ensures Valid()
      ensures written == DeleteCookieText(name)
      ensures jar == Remove(old(jar), name)
    {
      written := DeleteCookieText(name);
      RemoveKeepsJarOk(jar, name);
      jar := Remove(jar, name);
    }

    /** The request interceptor: the Authorization header it adds, if any. */
    method RequestAuthorization() returns (header: Option<string>)
      requires Valid()
      ensures header == AuthorizationFor(Find(jar, JWT_COOKIE))
    {
      var token := Get(JWT_COOKIE);
      if token.Some? && token.value != "" {
        header := Some("Bearer " + token.value);
      } else {
        header := None;
      }
    }

    /** The response interceptor on an error: a 401 clears the session; the error
        is passed on (rejected) in every case. */
    method OnResponseError(status: Option<int>) returns (rejected: bool)
      requires Valid()
      modifies this
      ensures Valid() && rejected
      ensures jar == if status == Some(401) then Remove(Remove(old(jar), JWT_COOKIE), USER_COOKIE) else old(jar)
    {
      if status == Some(401) {
        var _ := Delete(JWT_COOKIE);
        var _ := Delete(USER_COOKIE);
      }
      rejected := true;
    }

    /** tokenManager.setToken. */
    method SetToken(token: string, now: int, utc: int -> string)
      requires Valid() && CookieOk(Cookie(JWT_COOKIE, token))
      modifies this
      ensures Valid() && jar == Upsert(old(jar), JWT_COOKIE, token)
    {
      var _ := Set(JWT_COOKIE, token, 7, now, utc);
    }

    /** tokenManager.getToken. */
    method GetToken() returns (token: Option<string>)
      requires Valid()
      ensures token == Find(jar, JWT_COOKIE)
    {
      token := Get(JWT_COOKIE);
    }

    /** tokenManager.removeToken: the token goes and the user stays. */
    method RemoveToken()
      requires Valid()
      modifies this
      ensures Valid() && jar == Remove(old(jar), JWT_COOKIE)
    {
      var _ := Delete(JWT_COOKIE);
    }

    /** tokenManager.removeUser. */
    method RemoveUser()
      requires Valid()
      modifies this
      ensures Valid() && jar == Remove(old(jar), USER_COOKIE)
    {
      var _ := Delete(USER_COOKIE);
    }

    /** tokenManager.getUser: null without a (non-empty) cookie or when
        `decode`, standing for JSON.parse(decodeURIComponent(...)), fails. */
    method GetUser<U>(decode: string -> Option<U>) returns (user: Option<U>)
      requires Valid()
      ensures user == StoredUser(jar, decode)
    {
      var s := Get(USER_COOKIE);
      if s.None? || s.value == "" {
        return None;
      }
      user := decode(s.value);
    }

    /** tokenManager.setUser: `encode` stands for
        encodeURIComponent(JSON.stringify(...)). */
    method SetUser<U>(user: U, encode: U -> string, now: int, utc: int -> string)
      requires Valid() && CookieOk(Cookie(USER_COOKIE, encode(user)))
      modifies this
      ensures Valid() && jar == Upsert(old(jar), USER_COOKIE, encode(user))
    {
      var _ := Set(USER_COOKIE, encode(user), 7, now, utc);
    }

    /** tokenManager.clearAuth. */
    method ClearAuth()
      requires Valid()
      modifies this
      ensures Valid() && jar == Remove(Remove(old(jar), JWT_COOKIE), USER_COOKIE)
    {
      var _ := Delete(JWT_COOKIE);
      var _ := Delete(USER_COOKIE);
    }
  }

  /** The header the request interceptor adds for a stored token: none when the
      token is missing or empty (falsy). */
  function AuthorizationFor(token: Option<string>): (header: Option<string>)
    ensures header.Some? <==> token.Some? && token.value != ""
  {
    if token.Some? && token.value != "" then Some("Bearer " + token.value) else None
  }

  /** What tokenManager.getUser returns for a jar. */
  function StoredUser<U>(jar: seq<Cookie>, decode: string -> Option<U>): (user: Option<U>)
    ensures user.Some? ==> Find(jar, USER_COOKIE).Some?
  {
    var s := Find(jar, USER_COOKIE);
    if s.None? || s.value == "" then None else decode(s.value)
  }

  /** The header the client sends is one the server's token_required takes
      apart into the same token. */
  lemma HeaderCarriesToken(token: string)
    requires ' ' !in token && token != ""
    ensures AuthorizationFor(Some(token)).Some?
    ensures Auth.TokenOf(AuthorizationFor(Some(token)).value) == Ok(token)
  {
    assert ' ' !in "Bearer";
    Auth.BearerRoundTrip("Bearer", token);
    assert "Bearer" + " " + token == "Bearer " + token;
  }

  /** setUser then getUser gives the user back, as long as decoding undoes
      encoding; setting the token does not disturb it. */
  lemma UserRoundTrip<U>(jar: seq<Cookie>, user: U, encode: U -> string, decode: string -> Option<U>, token: string)
    requires encode(user) != "" && decode(encode(user)) == Some(user)
    ensures StoredUser(Upsert(jar, USER_COOKIE, encode(user)), decode) == Some(user)
    ensures StoredUser(Upsert(Upsert(jar, USER_COOKIE, encode(user)), JWT_COOKIE, token), decode) == Some(user)
  {
    UpsertFind(jar, USER_COOKIE, encode(user), JWT_COOKIE);
    var j := Upsert(jar, USER_COOKIE, encode(user));
    assert JWT_COOKIE != USER_COOKIE by { assert |JWT_COOKIE| != |USER_COOKIE|; }
    UpsertFind(j, JWT_COOKIE, token, USER_COOKIE);
  }

  /** After a 401 (or clearAuth) neither the token nor the user is left: the next
      request goes out without an Authorization header and getUser gives null. */
  lemma ClearedSessionIsEmpty<U>(jar: seq<Cookie>, decode: string -> Option<U>)
    ensures var cleared := Remove(Remove(jar, JWT_COOKIE), USER_COOKIE);
      Find(cleared, JWT_COOKIE).None? && AuthorizationFor(Find(cleared, JWT_COOKIE)).None?
      && StoredUser(cleared, decode).None?
  {
    assert JWT_COOKIE != USER_COOKIE by { assert |JWT_COOKIE| != |USER_COOKIE|; }
    RemoveFind(jar, JWT_COOKIE, USER_COOKIE);
    RemoveFind(Remove(jar, JWT_COOKIE), USER_COOKIE, JWT_COOKIE);
  }
}
