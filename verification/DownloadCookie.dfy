/**
 * The download-grant cookie (api/src/downloadCookie.ts): what is set is what is read back, among
 * any other cookies. A cookie header is `name=value` pairs joined by "; " (section 4.2.1 of RFC 6265).
 */
module DownloadCookie {
  import opened Prelude

  const COOKIE_NAME := "faims_download"
  const SECURE_NAME := "__Secure-faims_download"

  datatype Parsed = Parsed(grantId: string, secret: string)

  /** `decodeURIComponent`; None when it throws. */
  type Decoder = string -> Option<string>

  function CookieName(secure: bool): string {
    if secure then SECURE_NAME else COOKIE_NAME
  }

  /** `indexOf`. */
  function IndexOf(s: string, c: char): (i: int)
    ensures -1 <= i < |s|
    ensures i == -1 <==> c !in s
    ensures i >= 0 ==> s[i] == c && c !in s[..i]
  {
    if s == "" then -1
    else if s[0] == c then 0
    else
      var i := IndexOf(s[1..], c);
      assert i >= 0 ==> s[..i + 1] == [s[0]] + s[1..][..i];
      if i == -1 then -1 else i + 1
  }

  lemma {:induction false} IndexAt(a: string, c: char, rest: string)
    requires c !in a
    ensures var s := a + [c] + rest; IndexOf(s, c) == |a| && s[..|a|] == a && s[|a| + 1..] == rest
  {
    if a != "" {
      IndexAt(a[1..], c, rest);
      assert (a + [c] + rest)[1..] == a[1..] + [c] + rest;
    }
  }

  function Split(s: string, c: char): (parts: seq<string>)
    ensures parts != []
    decreases |s|
  {
    var i := IndexOf(s, c);
    if i == -1 then [s] else [s[..i]] + Split(s[i + 1..], c)
  }

  /** What `String.prototype.trim` removes: the white space and line terminators of ECMAScript. */
  predicate IsSpace(c: char) {
    var code := c as int;
    || 9 <= code <= 13 || code == 0x20 || code == 0xA0 || code == 0x1680 || 0x2000 <= code <= 0x200A
    || code == 0x2028 || code == 0x2029 || code == 0x202F || code == 0x205F || code == 0x3000 || code == 0xFEFF
  }

  function TrimStart(s: string): string {
    if s != "" && IsSpace(s[0]) then TrimStart(s[1..]) else s
  }

  function TrimEnd(s: string): string {
    if s != "" && IsSpace(s[|s| - 1]) then TrimEnd(s[..|s| - 1]) else s
  }

  function Trim(s: string): string {
    TrimEnd(TrimStart(s))
  }

  // ----- the grant value

  function PrintValue(grantId: string, secret: string): string {
    grantId + "." + secret
  }

  /** `parseDownloadGrantCookieValue`. */
  function ParseValue(value: Option<string>): Option<Parsed> {
    if value.None? || value.value == "" then None
    else
      var sep := IndexOf(value.value, '.');
      if sep <= 0 || sep == |value.value| - 1 then None
      else Some(Parsed(value.value[..sep], value.value[sep + 1..]))
  }

  /** A printed value is read back exactly when the id is not empty and has no dot, and the secret is not empty. */
  lemma ValueRoundTrip(grantId: string, secret: string)
    ensures ParseValue(Some(PrintValue(grantId, secret))) == Some(Parsed(grantId, secret))
       <==> (grantId != "" && '.' !in grantId && secret != "")
  {
    var value := PrintValue(grantId, secret);
    assert value[|grantId|] == '.' && value[..|grantId|] == grantId && value[|grantId| + 1..] == secret;
    if '.' !in grantId {
      IndexAt(grantId, '.', secret);
    }
  }

  /** Whatever is read prints back to the same value. */
  lemma ParsePrints(value: string, grantId: string, secret: string)
    ensures ParseValue(Some(value)) == Some(Parsed(grantId, secret))
       <==> (value == PrintValue(grantId, secret) && grantId != "" && '.' !in grantId && secret != "")
  {
    ValueRoundTrip(grantId, secret);
    if ParseValue(Some(value)) == Some(Parsed(grantId, secret)) {
      var sep := IndexOf(value, '.');
      assert value == value[..sep] + "." + value[sep + 1..];
    }
  }

  // ----- the header

  /** What one `;`-separated part adds to the cookies. */
  function Assign(out: map<string, string>, part: string, decode: Decoder): map<string, string> {
    var idx := IndexOf(part, '=');
    if idx == -1 then out
    else
      var key, raw := Trim(part[..idx]), Trim(part[idx + 1..]);
      if key == "" then out
      else out[key := if decode(raw).Some? then decode(raw).value else raw]
  }

  function AssignAll(out: map<string, string>, parts: seq<string>, decode: Decoder): map<string, string>
    decreases parts
  {
    if parts == [] then out else AssignAll(Assign(out, parts[0], decode), parts[1..], decode)
  }

  method ParseCookieHeader(header: Option<string>, decode: Decoder) returns (out: map<string, string>)
    ensures out == if header.None? then map[] else AssignAll(map[], Split(header.value, ';'), decode)
    ensures header.Some? ==> DictionaryOf(header.value, decode, out)
  {
    hide Trim, TrimStart, TrimEnd, DictionaryOf;
    if header.Some? {
      HeaderMeans(header.value, decode);
    }
    out := map[];
    if header.None? || header.value == "" {
      assert Split("", ';') == [""];
      assert AssignAll(map[], [""], decode) == map[];
      return;
    }
    var parts := Split(header.value, ';');
    for k := 0 to |parts|
      invariant AssignAll(out, parts[k..], decode) == AssignAll(map[], parts, decode)
    {
      var part := parts[k];
      assert parts[k..][0] == part && parts[k..][1..] == parts[k + 1..];
      var idx := IndexOf(part, '=');
      if idx == -1 {
        continue;
      }
      var key, raw := Trim(part[..idx]), Trim(part[idx + 1..]);
      if key == "" {
        continue;
      }
      var decoded := decode(raw);
      match decoded {
        case Some(text) => out := out[key := text];
        case None => out := out[key := raw];
      }
    }
  }

  // ----- what parsing comes to, told by the header alone

  /** The dictionary of these parts: of each non-empty name what the last part with it sets it to, decoded if possible. */
  ghost predicate Dictionary(parts: seq<string>, decode: Decoder, all: map<string, string>) {
    && (forall i :: 0 <= i < |parts| ==> ';' !in parts[i])
    && forall name :: name != "" ==>
         && (name in all <==> exists n, raw :: 0 <= n < |parts| && Sets(parts[n], name, raw))
         && (forall n, raw :: 0 <= n < |parts| && Sets(parts[n], name, raw)
                              && (forall m, other :: n < m < |parts| ==> !Sets(parts[m], name, other)) ==>
               all[name] == if decode(raw).Some? then decode(raw).value else raw)
  }

  /** The dictionary of the parts between semicolons. */
  ghost predicate DictionaryOf(header: string, decode: Decoder, all: map<string, string>) {
    exists parts :: parts != [] && Join(parts, ';') == header && Dictionary(parts, decode, all)
  }

  lemma HeaderMeans(header: string, decode: Decoder)
    ensures DictionaryOf(header, decode, AssignAll(map[], Split(header, ';'), decode))
  {
    hide Sets, AssignAll, Split, Join;
    SplitMeans(header, ';');
    var parts, all := Split(header, ';'), AssignAll(map[], Split(header, ';'), decode);
    forall name | name != ""
      ensures && (name in all <==> exists n, raw :: 0 <= n < |parts| && Sets(parts[n], name, raw))
              && (forall n, raw :: 0 <= n < |parts| && Sets(parts[n], name, raw)
                                   && (forall m, other :: n < m < |parts| ==> !Sets(parts[m], name, other)) ==>
                    all[name] == if decode(raw).Some? then decode(raw).value else raw)
    {
      DictionaryMeans(parts, decode, name);
    }
    assert Dictionary(parts, decode, all);
  }

  /** `t` is `s` without the white space around it, and lies from i to j. */
  predicate TrimmedAt(s: string, t: string, i: nat, j: nat) {
    && i <= j <= |s| && t == s[i..j]
    && (forall k :: 0 <= k < i ==> IsSpace(s[k])) && (forall k :: j <= k < |s| ==> IsSpace(s[k]))
    && (i < j ==> !IsSpace(s[i]) && !IsSpace(s[j - 1]))
  }

  ghost predicate Trimmed(s: string, t: string) {
    exists i: nat, j: nat :: TrimmedAt(s, t, i, j)
  }

  lemma {:induction false} TrimStartMeans(s: string) returns (i: nat)
    ensures i <= |s| && TrimStart(s) == s[i..] && (forall k :: 0 <= k < i ==> IsSpace(s[k])) && (i < |s| ==> !IsSpace(s[i]))
  {
    hide IsSpace;
    if s != "" && IsSpace(s[0]) {
      var n := TrimStartMeans(s[1..]);
      i := n + 1;
      assert forall k :: 0 < k < i ==> s[k] == s[1..][k - 1];
    } else {
      i := 0;
    }
  }

  lemma {:induction false} TrimEndMeans(s: string) returns (j: nat)
    ensures j <= |s| && TrimEnd(s) == s[..j] && (forall k :: j <= k < |s| ==> IsSpace(s[k])) && (j > 0 ==> !IsSpace(s[j - 1]))
  {
    hide IsSpace;
    if s != "" && IsSpace(s[|s| - 1]) {
      j := TrimEndMeans(s[..|s| - 1]);
      assert forall k :: 0 <= k < |s| - 1 ==> s[k] == s[..|s| - 1][k];
    } else {
      j := |s|;
    }
  }

  lemma TrimMeans(s: string)
    ensures Trimmed(s, Trim(s))
  {
    hide TrimStart, TrimEnd, IsSpace;
    var i := TrimStartMeans(s);
    var j := TrimEndMeans(s[i..]);
    assert forall k :: 0 <= k < |s[i..]| ==> s[i..][k] == s[i + k];
    assert forall k :: i + j <= k < |s| ==> s[k] == s[i..][k - i];
    assert TrimmedAt(s, Trim(s), i, i + j);
  }

  lemma SameTrim(s: string, t: string, i: nat, j: nat, u: string, m: nat, n: nat)
    requires TrimmedAt(s, t, i, j) && TrimmedAt(s, u, m, n)
    ensures t == u
  {
    hide IsSpace;
    if i < j {
      assert m <= i < n && !IsSpace(s[i]);
      assert m == i;
      assert n == j;
    }
  }

  /** Only one string is the trimmed form. */
  lemma OneTrimmed(s: string, t: string, u: string)
    requires Trimmed(s, t) && Trimmed(s, u)
    ensures t == u
  {
    hide TrimmedAt;
    var i: nat, j: nat :| TrimmedAt(s, t, i, j);
    var m: nat, n: nat :| TrimmedAt(s, u, m, n);
    SameTrim(s, t, i, j, u, m, n);
  }

  /** The part sets this name to this raw value: split at its first `=`, both sides trimmed. */
  ghost predicate Sets(part: string, name: string, raw: string) {
    exists k: nat :: k < |part| && part[k] == '=' && '=' !in part[..k] && Trimmed(part[..k], name) && Trimmed(part[k + 1..], raw)
  }

  /** A part sets at most one name, and an empty name counts as none. */
  lemma AssignMeans(out: map<string, string>, part: string, decode: Decoder, name: string)
    requires name != ""
    ensures var after := Assign(out, part, decode);
            && (name in after <==> name in out || exists raw :: Sets(part, name, raw))
            && (forall raw :: Sets(part, name, raw) ==> after[name] == if decode(raw).Some? then decode(raw).value else raw)
            && ((forall raw :: !Sets(part, name, raw)) && name in out ==> after[name] == out[name])
  {
    hide Trim, Trimmed, IndexOf;
    var idx := IndexOf(part, '=');
    if idx != -1 {
      var key, text := Trim(part[..idx]), Trim(part[idx + 1..]);
      TrimMeans(part[..idx]);
      TrimMeans(part[idx + 1..]);
      assert Sets(part, key, text);
      forall n, raw | Sets(part, n, raw)
        ensures n == key && raw == text
      {
        var k: nat :| k < |part| && part[k] == '=' && '=' !in part[..k] && Trimmed(part[..k], n) && Trimmed(part[k + 1..], raw);
        FirstIs(part, k);
        OneTrimmed(part[..k], n, key);
        OneTrimmed(part[k + 1..], raw, text);
      }
    }
  }

  lemma FirstIs(s: string, k: nat)
    requires k < |s| && s[k] == '=' && '=' !in s[..k]
    ensures IndexOf(s, '=') == k
  {
    assert s == s[..k] + ['='] + s[k + 1..];
    IndexAt(s[..k], '=', s[k + 1..]);
  }

  lemma {:induction false} AssignAllSnoc(out: map<string, string>, parts: seq<string>, part: string, decode: Decoder)
    ensures AssignAll(out, parts + [part], decode) == Assign(AssignAll(out, parts, decode), part, decode)
    decreases parts
  {
    if parts == [] {
      assert [] + [part] == [part] && [part][1..] == [];
    } else {
      assert (parts + [part])[1..] == parts[1..] + [part];
      AssignAllSnoc(Assign(out, parts[0], decode), parts[1..], part, decode);
    }
  }

  /** The dictionary holds what the last part with a name sets it to, decoded if that is possible. */
  lemma {:induction false} DictionaryMeans(parts: seq<string>, decode: Decoder, name: string)
    requires name != ""
    ensures var all := AssignAll(map[], parts, decode);
            && (name in all <==> exists n, raw :: 0 <= n < |parts| && Sets(parts[n], name, raw))
            && (forall n, raw :: 0 <= n < |parts| && Sets(parts[n], name, raw)
                                 && (forall m, other :: n < m < |parts| ==> !Sets(parts[m], name, other)) ==>
                  all[name] == if decode(raw).Some? then decode(raw).value else raw)
    decreases parts
  {
    hide Sets, Assign;
    if parts != [] {
      var k := |parts| - 1;
      var before := AssignAll(map[], parts[..k], decode);
      assert parts == parts[..k] + [parts[k]];
      AssignAllSnoc(map[], parts[..k], parts[k], decode);
      DictionaryMeans(parts[..k], decode, name);
      AssignMeans(before, parts[k], decode, name);
      assert forall n :: 0 <= n < k ==> parts[..k][n] == parts[n];
    }
  }

  /** The parts, joined by the separator, are the string, and none contains it. */
  function Join(parts: seq<string>, c: char): string
    requires parts != []
  {
    if |parts| == 1 then parts[0] else parts[0] + [c] + Join(parts[1..], c)
  }

  lemma {:induction false} SplitMeans(s: string, c: char)
    ensures Join(Split(s, c), c) == s && forall i :: 0 <= i < |Split(s, c)| ==> c !in Split(s, c)[i]
    decreases |s|
  {
    hide IndexOf;
    var i := IndexOf(s, c);
    if i != -1 {
      SplitMeans(s[i + 1..], c);
      assert Split(s, c)[1..] == Split(s[i + 1..], c);
      assert s == s[..i] + [c] + s[i + 1..];
    }
  }

  /** `readDownloadGrantCookie`: the `__Secure-` name wins. */
  function ReadGrant(cookies: map<string, string>): Option<Parsed> {
    if SECURE_NAME in cookies then ParseValue(Some(cookies[SECURE_NAME]))
    else if COOKIE_NAME in cookies then ParseValue(Some(cookies[COOKIE_NAME]))
    else None
  }

  // ----- what a browser sends

  datatype Cookie = Cookie(name: string, value: string)

  predicate NoSpace(s: string) {
    forall i :: 0 <= i < |s| ==> !IsSpace(s[i])
  }

  predicate Clean(cookie: Cookie) {
    && cookie.name != "" && '=' !in cookie.name && ';' !in cookie.name && NoSpace(cookie.name)
    && ';' !in cookie.value && NoSpace(cookie.value)
  }

  predicate AllClean(cookies: seq<Cookie>) {
    forall i :: 0 <= i < |cookies| ==> Clean(cookies[i])
  }

  function Pair(cookie: Cookie): string {
    cookie.name + "=" + cookie.value
  }

  function Header(cookies: seq<Cookie>): string
    requires cookies != []
  {
    if |cookies| == 1 then Pair(cookies[0]) else Pair(cookies[0]) + "; " + Header(cookies[1..])
  }

  /** The cookies as a dictionary; the last of a name counts. */
  function Jar(out: map<string, string>, cookies: seq<Cookie>, decode: Decoder): map<string, string>
    decreases cookies
  {
    if cookies == [] then out
    else
      var cookie := cookies[0];
      Jar(out[cookie.name := if decode(cookie.value).Some? then decode(cookie.value).value else cookie.value], cookies[1..], decode)
  }

  lemma TrimClean(s: string)
    requires NoSpace(s)
    ensures Trim(s) == s && Trim(" " + s) == s
  {
    assert (" " + s)[1..] == s;
  }

  lemma AssignSplit(out: map<string, string>, key: string, raw: string, decode: Decoder)
    requires '=' !in key
    ensures Assign(out, key + "=" + raw, decode)
         == if Trim(key) == "" then out
            else out[Trim(key) := if decode(Trim(raw)).Some? then decode(Trim(raw)).value else Trim(raw)]
  {
    hide IndexOf, Trim;
    IndexAt(key, '=', raw);
  }

  lemma AssignPair(out: map<string, string>, cookie: Cookie, lead: string, decode: Decoder)
    requires Clean(cookie) && (lead == "" || lead == " ")
    ensures Assign(out, lead + Pair(cookie), decode)
         == out[cookie.name := if decode(cookie.value).Some? then decode(cookie.value).value else cookie.value]
  {
    hide IndexOf, Trim, Assign;
    assert lead + Pair(cookie) == (lead + cookie.name) + "=" + cookie.value;
    AssignSplit(out, lead + cookie.name, cookie.value, decode);
    TrimClean(cookie.name);
    TrimClean(cookie.value);
    assert "" + cookie.name == cookie.name;
  }

  lemma SplitFirst(a: string, rest: string)
    requires ';' !in a
    ensures Split(a + ";" + rest, ';') == [a] + Split(rest, ';')
  {
    IndexAt(a, ';', rest);
  }

  lemma SplitNone(s: string)
    requires ';' !in s
    ensures Split(s, ';') == [s]
  {
  }

  lemma CleanPair(cookie: Cookie, lead: string)
    requires Clean(cookie) && (lead == "" || lead == " ")
    ensures ';' !in lead + Pair(cookie)
  {
  }

  lemma {:induction false} HeaderParses(out: map<string, string>, cookies: seq<Cookie>, lead: string, decode: Decoder)
    requires cookies != [] && AllClean(cookies) && (lead == "" || lead == " ")
    ensures AssignAll(out, Split(lead + Header(cookies), ';'), decode) == Jar(out, cookies, decode)
    decreases cookies
  {
    hide Split, Assign, Clean;
    var first := lead + Pair(cookies[0]);
    CleanPair(cookies[0], lead);
    AssignPair(out, cookies[0], lead, decode);
    var after := Assign(out, first, decode);
    if |cookies| == 1 {
      SplitNone(first);
      assert AssignAll(after, [], decode) == after && Jar(after, [], decode) == after;
      assert [first][1..] == [];
      assert cookies[1..] == [];
    } else {
      var rest := " " + Header(cookies[1..]);
      assert lead + Header(cookies) == first + ";" + rest;
      SplitFirst(first, rest);
      HeaderParses(after, cookies[1..], " ", decode);
      assert ([first] + Split(rest, ';'))[1..] == Split(rest, ';');
    }
  }

  function Text(cookie: Cookie, decode: Decoder): string {
    if decode(cookie.value).Some? then decode(cookie.value).value else cookie.value
  }

  /** The last cookie with a name. */
  function LastNamed(cookies: seq<Cookie>, name: string): Option<Cookie> {
    if cookies == [] then None
    else if cookies[|cookies| - 1].name == name then Some(cookies[|cookies| - 1])
    else LastNamed(cookies[..|cookies| - 1], name)
  }

  lemma {:induction false} JarAppend(out: map<string, string>, cookies: seq<Cookie>, last: Cookie, decode: Decoder)
    ensures Jar(out, cookies + [last], decode) == Jar(out, cookies, decode)[last.name := Text(last, decode)]
    decreases cookies
  {
    if cookies == [] {
      assert [] + [last] == [last] && [last][1..] == [];
    } else {
      assert (cookies + [last])[1..] == cookies[1..] + [last];
      JarAppend(out[cookies[0].name := Text(cookies[0], decode)], cookies[1..], last, decode);
    }
  }

  /** The dictionary holds the last cookie of each name. */
  lemma {:induction false} JarMeaning(cookies: seq<Cookie>, name: string, decode: Decoder)
    ensures name in Jar(map[], cookies, decode) <==> LastNamed(cookies, name).Some?
    ensures name in Jar(map[], cookies, decode) ==> Jar(map[], cookies, decode)[name] == Text(LastNamed(cookies, name).value, decode)
  {
    if cookies != [] {
      var n := |cookies| - 1;
      assert cookies == cookies[..n] + [cookies[n]];
      JarAppend(map[], cookies[..n], cookies[n], decode);
      JarMeaning(cookies[..n], name, decode);
    }
  }

  /** The cookie the reader prefers: the last secure one, or else the last plain one. */
  function Preferred(cookies: seq<Cookie>): Option<Cookie> {
    if LastNamed(cookies, SECURE_NAME).Some? then LastNamed(cookies, SECURE_NAME) else LastNamed(cookies, COOKIE_NAME)
  }

  /**
   * End to end, for every header of clean cookies: an id and a secret are read back if and only if the
   * cookie the reader prefers carries them, and they are of a form that can be set.
   */
  lemma GrantCookieRoundTrip(cookies: seq<Cookie>, grantId: string, secret: string, decode: Decoder)
    requires cookies != [] && AllClean(cookies)
    ensures ReadGrant(AssignAll(map[], Split(Header(cookies), ';'), decode)) == Some(Parsed(grantId, secret))
       <==> (Preferred(cookies).Some? && Text(Preferred(cookies).value, decode) == PrintValue(grantId, secret)
             && grantId != "" && '.' !in grantId && secret != "")
  {
    hide Split, AssignAll, Jar, LastNamed, ParseValue, PrintValue;
    assert "" + Header(cookies) == Header(cookies);
    HeaderParses(map[], cookies, "", decode);
    JarMeaning(cookies, SECURE_NAME, decode);
    JarMeaning(cookies, COOKIE_NAME, decode);
    if Preferred(cookies).Some? {
      ParsePrints(Text(Preferred(cookies).value, decode), grantId, secret);
    }
  }

  /**
   * So a cookie that was set, under the name its scheme calls for and last of that name, is read back
   * if and only if the scheme is secure or no other value came in a secure cookie.
   */
  lemma SetThenRead(cookies: seq<Cookie>, secure: bool, grantId: string, secret: string, decode: Decoder)
    requires cookies != [] && AllClean(cookies) && grantId != "" && '.' !in grantId && secret != ""
    requires LastNamed(cookies, CookieName(secure)).Some?
    requires Text(LastNamed(cookies, CookieName(secure)).value, decode) == PrintValue(grantId, secret)
    ensures ReadGrant(AssignAll(map[], Split(Header(cookies), ';'), decode)) == Some(Parsed(grantId, secret))
       <==> (secure || LastNamed(cookies, SECURE_NAME).None?
             || Text(LastNamed(cookies, SECURE_NAME).value, decode) == PrintValue(grantId, secret))
  {
    hide Split, AssignAll, LastNamed, PrintValue, ReadGrant, Header;
    GrantCookieRoundTrip(cookies, grantId, secret, decode);
  }

  /** A leftover secure cookie, then, hides a plain one that was set since, wherever the two stand. */
  lemma LeftoverSecureCookieHides(stale: string, grantId: string, secret: string, decode: Decoder)
    requires Clean(Cookie(SECURE_NAME, stale)) && Clean(Cookie(COOKIE_NAME, PrintValue(grantId, secret)))
    requires Text(Cookie(SECURE_NAME, stale), decode) != PrintValue(grantId, secret)
    ensures var plain, leftover := Cookie(COOKIE_NAME, PrintValue(grantId, secret)), Cookie(SECURE_NAME, stale);
            && ReadGrant(AssignAll(map[], Split(Header([leftover, plain]), ';'), decode)) != Some(Parsed(grantId, secret))
            && ReadGrant(AssignAll(map[], Split(Header([plain, leftover]), ';'), decode)) != Some(Parsed(grantId, secret))
  {
    hide Split, AssignAll, ReadGrant, Header;
    var plain, leftover := Cookie(COOKIE_NAME, PrintValue(grantId, secret)), Cookie(SECURE_NAME, stale);
    assert COOKIE_NAME[0] != SECURE_NAME[0];
    assert [leftover, plain][..1] == [leftover];
    assert LastNamed([leftover, plain], SECURE_NAME) == Some(leftover);
    assert LastNamed([plain, leftover], SECURE_NAME) == Some(leftover);
    GrantCookieRoundTrip([leftover, plain], grantId, secret, decode);
    GrantCookieRoundTrip([plain, leftover], grantId, secret, decode);
  }
}
