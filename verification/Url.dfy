/** smb2_parse_url of lib/init.c, which cuts its copy of the URL in place, and the printer it inverts. */
module Url {
  import opened Wrappers

  const MAX_URL_SIZE := 1024

  /** struct smb2_url: the parts that may be absent are null there. */
  datatype Url = Url(domain: Option<string>, user: Option<string>, server: string, share: string, path: Option<string>)

  // ----- The syntax: smb://[domain;][user@]server/share[/path][?arguments] -----

  /** Where a character first occurs, or the end. */
  function Find(s: string, c: char): (i: nat)
    ensures i <= |s| && c !in s[..i] && (i < |s| ==> s[i] == c)
  {
    if s == "" || s[0] == c then 0 else
      var rest := Find(s[1..], c);
      assert s[..1 + rest] == [s[0]] + s[1..][..rest];
      1 + rest
  }

  /** What stands before a separator that comes before any slash, and the rest. */
  function Split(s: string, separator: char): (Option<string>, string) {
    var i := Find(s, separator);
    if i < Find(s, '/') then (Some(s[..i]), s[i + 1..]) else (None, s)
  }

  /** The URL without its scheme and its arguments. */
  function Body(s: string): string {
    s[..Find(s, '?')]
  }

  function Parsed(body: string): Option<Url> {
    if '/' !in body then None
    else
      var (domain, rest) := Split(body, ';');
      var (user, rest) := Split(rest, '@');
      WithFolder(domain, user, rest)
  }

  /** The server up to the first slash, the share up to the next, and the path. */
  function WithFolder(domain: Option<string>, user: Option<string>, rest: string): Option<Url> {
    var slash := Find(rest, '/');
    if slash == |rest| then None
    else
      var server, folder := rest[..slash], rest[slash + 1..];
      var end := Find(folder, '/');
      if end == |folder| then Some(Url(domain, user, server, folder, None))
      else Some(Url(domain, user, server, folder[..end], Some(folder[end + 1..])))
  }

  function Printed(u: Url): string {
    (if u.domain.Some? then u.domain.value + ";" else "")
    + ((if u.user.Some? then u.user.value + "@" else "")
       + (u.server + "/" + (u.share + (if u.path.Some? then "/" + u.path.value else ""))))
  }

  /** No part holds a character that would end it, or that would make it look like a part that is absent. */
  predicate Canonical(u: Url) {
    && '/' !in u.server && '/' !in u.share
    && (if u.domain.Some? then ';' !in u.domain.value && '/' !in u.domain.value
        else ';' !in u.server && (u.user.Some? ==> ';' !in u.user.value))
    && (if u.user.Some? then '@' !in u.user.value && '/' !in u.user.value else '@' !in u.server)
  }

  predicate NoArguments(u: Url) {
    '?' !in Printed(u)
  }

  // ----- Printing and parsing -----

  lemma {:induction false} FindInFront(front: string, c: char, rest: string)
    requires c !in front
    ensures Find(front + rest, c) == |front| + Find(rest, c)
  {
    if front == "" {
      assert front + rest == rest;
    } else {
      assert (front + rest)[1..] == front[1..] + rest;
      assert (front + rest)[0] in front;
      FindInFront(front[1..], c, rest);
    }
  }

  lemma FindAt(front: string, c: char, rest: string)
    requires c !in front
    ensures Find(front + [c] + rest, c) == |front|
  {
    assert front + [c] + rest == front + ([c] + rest);
    FindInFront(front, c, [c] + rest);
  }

  /** A part with its separator in front of a rest splits off whole. */
  lemma SplitsOff(part: string, separator: char, rest: string)
    requires separator !in part && '/' !in part && separator != '/'
    ensures Split(part + [separator] + rest, separator) == (Some(part), rest)
  {
    var s := part + [separator] + rest;
    FindAt(part, separator, rest);
    assert part + [separator] + rest == (part + [separator]) + rest;
    FindInFront(part + [separator], '/', rest);
    assert s[|part| + 1..] == rest && s[..|part|] == part;
  }

  /** Without the separator before the first slash nothing splits off. */
  lemma NothingSplits(front: string, separator: char, rest: string)
    requires separator !in front && '/' !in front && separator != '/'
    ensures Split(front + "/" + rest, separator) == (None, front + "/" + rest)
  {
    FindAt(front, '/', rest);
    assert front + "/" + rest == front + ("/" + rest);
    FindInFront(front, separator, "/" + rest);
  }

  /** The part from the server on. */
  function Folder(u: Url): string {
    u.share + (if u.path.Some? then "/" + u.path.value else "")
  }

  function FromServer(u: Url): string {
    u.server + "/" + Folder(u)
  }

  function FromUser(u: Url): string {
    (if u.user.Some? then u.user.value + "@" else "") + FromServer(u)
  }

  lemma PrintParses(u: Url)
    requires Canonical(u)
    ensures Parsed(Printed(u)) == Some(u)
  {
    hide Find, Split;
    assert FromServer(u)[|u.server|] == '/';
    assert Printed(u) == (if u.domain.Some? then u.domain.value + ";" else "") + FromUser(u);
    assert '/' in Printed(u) by {
      assert Printed(u)[|Printed(u)| - |Folder(u)| - 1] == '/';
    }
    DomainSplits(u);
    UserSplits(u);
    FolderSplits(u);
  }

  lemma DomainSplits(u: Url)
    requires Canonical(u)
    ensures Split(Printed(u), ';') == (u.domain, FromUser(u))
  {
    hide Find, Split;
    if u.domain.Some? {
      SplitsOff(u.domain.value, ';', FromUser(u));
    } else if u.user.Some? {
      NothingSplits(u.user.value + "@" + u.server, ';', Folder(u));
      assert Printed(u) == u.user.value + "@" + u.server + "/" + Folder(u) == FromUser(u);
    } else {
      NothingSplits(u.server, ';', Folder(u));
      assert Printed(u) == u.server + "/" + Folder(u) == FromUser(u);
    }
  }

  lemma UserSplits(u: Url)
    requires Canonical(u)
    ensures Split(FromUser(u), '@') == (u.user, FromServer(u))
  {
    hide Find, Split;
    if u.user.Some? {
      SplitsOff(u.user.value, '@', FromServer(u));
    } else {
      NothingSplits(u.server, '@', Folder(u));
      assert FromUser(u) == FromServer(u);
    }
  }

  lemma FolderSplits(u: Url)
    requires Canonical(u)
    ensures Find(FromServer(u), '/') == |u.server| < |FromServer(u)|
    ensures FromServer(u)[..|u.server|] == u.server && FromServer(u)[|u.server| + 1..] == Folder(u)
    ensures Find(Folder(u), '/') == |u.share|
    ensures u.path.None? ==> Folder(u) == u.share
    ensures u.path.Some? ==> |u.share| < |Folder(u)| && Folder(u)[..|u.share|] == u.share
                             && Folder(u)[|u.share| + 1..] == u.path.value
  {
    FindAt(u.server, '/', Folder(u));
    if u.path.Some? {
      FindAt(u.share, '/', u.path.value);
      assert Folder(u) == u.share + "/" + u.path.value;
    } else {
      assert Folder(u) == u.share + "";
      FindInFront(u.share, '/', "");
    }
  }

  lemma SplitMeans(s: string, separator: char)
    requires separator != '/'
    ensures var (part, rest) := Split(s, separator);
      match part
      case Some(p) => s == p + [separator] + rest && separator !in p && '/' !in p
      case None => rest == s && separator !in s[..Find(s, '/')]
  {
    var i, slash := Find(s, separator), Find(s, '/');
    if i < slash {
      assert s[..i] == s[..slash][..i];
      assert s == s[..i] + [s[i]] + s[i + 1..];
    } else {
      assert s[..slash] == s[..i][..slash];
    }
  }

  lemma FolderPrints(domain: Option<string>, user: Option<string>, rest: string)
    requires WithFolder(domain, user, rest).Some?
    ensures var u := WithFolder(domain, user, rest).value;
      && FromServer(u) == rest && '/' !in u.server && '/' !in u.share && u.domain == domain && u.user == user
      && u.server == rest[..Find(rest, '/')]
  {
    hide Find;
    var u := WithFolder(domain, user, rest).value;
    var folder := rest[Find(rest, '/') + 1..];
    SlashSplits(rest);
    ShareSplits(folder, u);
  }

  lemma ShareSplits(folder: string, u: Url)
    requires if Find(folder, '/') == |folder| then u.share == folder && u.path == None
      else u.share == folder[..Find(folder, '/')] && u.path == Some(folder[Find(folder, '/') + 1..])
    ensures Folder(u) == folder && '/' !in u.share
  {
    hide Find;
    SlashSplits(folder);
    if u.path.None? {
      assert u.share + "" == u.share;
    } else {
      assert u.share + ("/" + u.path.value) == u.share + "/" + u.path.value;
    }
  }

  lemma SlashSplits(s: string)
    ensures '/' !in s[..Find(s, '/')]
    ensures Find(s, '/') < |s| ==> s == s[..Find(s, '/')] + "/" + s[Find(s, '/') + 1..]
    ensures Find(s, '/') == |s| ==> s[..Find(s, '/')] == s
  {
    hide Find;
    if Find(s, '/') < |s| {
      CutAt(s, Find(s, '/'), '/');
    }
  }

  lemma CutAt(s: string, i: nat, c: char)
    requires i < |s| && s[i] == c
    ensures s == s[..i] + [c] + s[i + 1..]
  {
  }

  /** Printing what was parsed gives the body back, and what was parsed is canonical. */
  lemma ParsePrints(body: string)
    requires Parsed(body).Some?
    ensures Printed(Parsed(body).value) == body
    ensures Canonical(Parsed(body).value)
  {
    hide Find, Split, WithFolder;
    var u := Parsed(body).value;
    var (domain, afterDomain) := Split(body, ';');
    var (user, afterUser) := Split(afterDomain, '@');
    SplitMeans(body, ';');
    SplitMeans(afterDomain, '@');
    FolderPrints(domain, user, afterUser);
    assert afterDomain == FromUser(u);
    assert Printed(u) == (if u.domain.Some? then u.domain.value + ";" else "") + FromUser(u);
    if domain.None? {
      FirstSlash(u, body);
    }
  }

  /** Without a domain the first slash of the body ends the user and the server. */
  lemma FirstSlash(u: Url, body: string)
    requires u.domain.None? && body == FromUser(u) && '/' !in u.server && (u.user.Some? ==> '/' !in u.user.value)
    requires ';' !in body[..Find(body, '/')]
    ensures ';' !in u.server && (u.user.Some? ==> ';' !in u.user.value)
  {
    var front := (if u.user.Some? then u.user.value + "@" else "") + u.server;
    assert body == front + "/" + Folder(u);
    FindAt(front, '/', Folder(u));
    assert body[..|front|] == front;
    forall k | 0 <= k < |u.server|
      ensures u.server[k] != ';'
    {
      assert front[|front| - |u.server| + k] == u.server[k];
    }
    if u.user.Some? {
      forall k | 0 <= k < |u.user.value|
        ensures u.user.value[k] != ';'
      {
        assert front[k] == u.user.value[k];
      }
    }
  }

  /** Printing and parsing come back to where they started exactly for canonical parts without a question mark. */
  lemma UrlRoundTrip(u: Url)
    ensures Parsed(Body(Printed(u))) == Some(u) <==> Canonical(u) && NoArguments(u)
  {
    hide Find, Printed, Parsed, Canonical;
    var s := Printed(u);
    if NoArguments(u) {
      WholeBody(s);
    }
    if Canonical(u) {
      PrintParses(u);
    }
    if Parsed(Body(s)) == Some(u) {
      ParsePrints(Body(s));
    }
  }

  lemma WholeBody(s: string)
    requires '?' !in s
    ensures Body(s) == s
  {
  }

  // ----- The parser in place -----

  /** A C string of n characters at the front of the buffer, of which those before at may have been cut. */
  ghost predicate Holds(a: seq<char>, s: string, at: nat) {
    at <= |s| < |a| && '\0' !in s && a[at..|s|] == s[at..] && a[|s|] == '\0'
  }

  /** strchr from a position on; the end when there is none. */
  method Strchr(str: array<char>, ghost s: string, from: nat, c: char) returns (found: bool, at: nat)
    requires Holds(str[..], s, from) && c != '\0'
    ensures at == from + Find(s[from..], c) && (found <==> at < |s|)
  {
    at := from;
    while str[at] != '\0' && str[at] != c
      invariant from <= at <= |s|
      invariant c !in s[from..at]
      decreases |s| - at
    {
      assert str[at] == str[..][from..|s|][at - from] == s[at];
      assert s[from..at + 1] == s[from..at] + [s[at]];
      at := at + 1;
    }
    if at < |s| {
      assert str[at] == str[..][from..|s|][at - from] == s[at];
      assert s[at] in s;
      FindAt(s[from..at], c, s[at + 1..]);
      assert s[from..] == s[from..at] + [c] + s[at + 1..];
    } else {
      FindInFront(s[from..at], c, "");
      assert s[from..] == s[from..at] + "";
    }
    found := str[at] == c;
  }

  lemma HoldsLater(a: seq<char>, s: string, at: nat, from: nat)
    requires Holds(a, s, at) && at <= from <= |s|
    ensures Holds(a, s, from)
  {
    assert a[from..|s|] == a[at..|s|][from - at..];
  }

  lemma CharAt(a: seq<char>, s: string, at: nat, end: nat, k: nat)
    requires at <= k <= end <= |s| && end < |a| && a[at..end] == s[at..end] && a[end] == '\0' && '\0' !in s
    ensures a[k] != '\0' <==> k < end
    ensures k < end ==> a[k] == s[k]
  {
    if k < end {
      assert a[k] == a[at..end][k - at] == s[at..end][k - at] == s[k];
      assert s[k] in s;
    }
  }

  /** strlen. */
  method Strlen(str: array<char>, ghost s: string, from: nat) returns (n: nat)
    requires Holds(str[..], s, from)
    ensures n == |s| - from
  {
    n := 0;
    CharAt(str[..], s, from, |s|, from);
    while str[from + n] != '\0'
      invariant from + n <= |s| && (str[from + n] != '\0' <==> from + n < |s|)
      decreases |s| - n
    {
      n := n + 1;
      CharAt(str[..], s, from, |s|, from + n);
    }
  }

  /** strdup of what stands between a position and the next NUL. */
  method Strdup(str: array<char>, ghost s: string, from: nat, ghost end: nat) returns (copy: string)
    requires from <= end < str.Length && end <= |s| && str[from..end] == s[from..end] && str[end] == '\0' && '\0' !in s
    ensures copy == s[from..end]
  {
    copy := "";
    var i := from;
    CharAt(str[..], s, from, end, i);
    while str[i] != '\0'
      invariant from <= i <= end && copy == s[from..i] && (str[i] != '\0' <==> i < end)
      decreases end - i
    {
      CharAt(str[..], s, from, end, i);
      copy := copy + [str[i]];
      i := i + 1;
      CharAt(str[..], s, from, end, i);
    }
  }

  /** Writing a NUL over a separator and copying the part before it. */
  method CutOff(str: array<char>, ghost s: string, from: nat, at: nat) returns (part: string)
    requires Holds(str[..], s, from) && from <= at < |s|
    modifies str
    ensures part == s[from..at] && Holds(str[..], s, at + 1)
  {
    ghost var before := str[..];
    str[at] := '\0';
    assert str[from..at] == before[from..|s|][..at - from];
    assert str[..][at + 1..|s|] == before[from..|s|][at + 1 - from..];
    part := Strdup(str, s, from, at);
  }

  /** The domain or the user, if its separator comes before the first slash. */
  method CutPart(str: array<char>, ghost s: string, from: nat, separator: char, ghost slash: nat, lenFolder: nat)
    returns (part: Option<string>, next: nat)
    requires Holds(str[..], s, from) && separator != '\0' && separator != '/'
    requires slash == from + Find(s[from..], '/') < |s| && lenFolder == |s| - slash
    modifies str
    ensures from <= next <= slash && Holds(str[..], s, next)
    ensures Split(s[from..], separator) == (part, s[next..])
    ensures slash == next + Find(s[next..], '/')
  {
    hide Find;
    part, next := None, from;
    var found, at := Strchr(str, s, from, separator);
    var length := 0;
    if found {
      HoldsLater(str[..], s, from, at);
      length := Strlen(str, s, at);
    }
    if found && length > lenFolder {
      var p := CutOff(str, s, from, at);
      part, next := Some(p), at + 1;
      assert s[from..][..at - from] == p && s[from..][at - from + 1..] == s[next..];
      NoSlashBefore(s[from..], at - from);
    }
  }

  lemma NoSlashBefore(s: string, at: nat)
    requires at < Find(s, '/')
    ensures Find(s, '/') == at + 1 + Find(s[at + 1..], '/')
  {
    assert s == s[..at + 1] + s[at + 1..];
    assert s[..at + 1] == s[..Find(s, '/')][..at + 1];
    FindInFront(s[..at + 1], '/', s[at + 1..]);
  }

  /** The part of smb2_parse_url after the arguments are gone: s is the body. */
  method ParseBody(str: array<char>, ghost s: string) returns (u: Option<Url>)
    requires Holds(str[..], s, 0)
    modifies str
    ensures u == Parsed(s)
  {
    hide Find, Split, Holds, WithFolder;
    assert s[0..] == s;
    var found, slash := Strchr(str, s, 0, '/');
    SlashFound(s);
    if !found {
      return None;
    }
    var domain, user, ptr;
    HoldsLater(str[..], s, 0, slash);
    var lenFolder := Strlen(str, s, slash);
    domain, ptr := CutPart(str, s, 0, ';', slash, lenFolder);
    user, ptr := CutPart(str, s, ptr, '@', slash, lenFolder);
    u := ParseFolder(str, s, ptr, domain, user);
  }

  /** The server, the share and the path. */
  method ParseFolder(str: array<char>, ghost s: string, from: nat, domain: Option<string>, user: Option<string>)
    returns (u: Option<Url>)
    requires Holds(str[..], s, from) && Find(s[from..], '/') < |s| - from
    modifies str
    ensures u == WithFolder(domain, user, s[from..])
  {
    hide Find, Holds;
    ghost var rest := s[from..];
    var found, slash := Strchr(str, s, from, '/');
    var server := CutOff(str, s, from, slash);
    assert rest[..slash - from] == server;
    var ptr := slash + 1;
    ghost var folder := s[ptr..];
    assert rest[slash - from + 1..] == folder;
    var end;
    found, end := Strchr(str, s, ptr, '/');
    if !found {
      HoldsEnd(str[..], s, ptr);
      var share := Strdup(str, s, ptr, |s|);
      assert share == folder;
      return Some(Url(domain, user, server, share, None));
    }
    var share := CutOff(str, s, ptr, end);
    HoldsEnd(str[..], s, end + 1);
    var path := Strdup(str, s, end + 1, |s|);
    assert folder[..end - ptr] == share && folder[end - ptr + 1..] == path;
    u := Some(Url(domain, user, server, share, Some(path)));
  }

  lemma SlashFound(s: string)
    ensures '/' in s <==> Find(s, '/') < |s|
  {
    assert Find(s, '/') == |s| ==> s[..|s|] == s;
  }

  lemma HoldsEnd(a: seq<char>, s: string, at: nat)
    requires Holds(a, s, at)
    ensures at <= |s| < |a| && a[at..|s|] == s[at..] == s[at..|s|] && a[|s|] == '\0' && '\0' !in s
  {
  }

  /** smb2_parse_url. The arguments go to a parser of their own, which may refuse them. */
  method ParseUrl(url: string, argumentsGood: string -> bool) returns (u: Option<Url>)
    requires '\0' !in url
    ensures u == if "smb://" <= url && |url| - 6 < 1024
                    && (Find(url[6..], '?') < |url[6..]| ==> argumentsGood(url[6..][Find(url[6..], '?') + 1..]))
                 then Parsed(Body(url[6..])) else None
  {
    hide Find, Parsed, Holds;
    if |url| < 6 || url[..6] != "smb://" {
      assert !("smb://" <= url);
      return None;
    }
    if |url| - 6 >= MAX_URL_SIZE {
      return None;
    }
    ghost var s := url[6..];
    var str := Strncpy(url);
    assert s[0..] == s;
    var found, at := Strchr(str, s, 0, '?');
    if found {
      ghost var before := str[..];
      str[at] := '\0';
      BodyHolds(before, str[..], s, at);
      HoldsEnd(before, s, 0);
      assert before[at + 1..|s|] == before[0..|s|][at + 1..];
      var arguments := Strdup(str, s, at + 1, |s|);
      assert arguments == s[at + 1..];
      if !argumentsGood(arguments) {
        return None;
      }
    } else {
      assert s[..at] == s;
    }
    u := ParseBody(str, Body(s));
  }

  lemma BodyHolds(before: seq<char>, after: seq<char>, s: string, at: nat)
    requires Holds(before, s, 0) && at == Find(s, '?') < |s| && after == before[at := '\0']
    ensures Holds(after, Body(s), 0)
  {
    assert after[0..at] == before[0..|s|][..at];
  }

  /** strncpy into a buffer of MAX_URL_SIZE, which fills the rest with NULs. */
  method Strncpy(url: string) returns (str: array<char>)
    requires '\0' !in url && 6 <= |url| && |url| - 6 < MAX_URL_SIZE
    ensures fresh(str) && str.Length == MAX_URL_SIZE && Holds(str[..], url[6..], 0)
  {
    str := new char[MAX_URL_SIZE];
    for i := 0 to MAX_URL_SIZE
      invariant forall k :: 0 <= k < i ==> str[k] == if k < |url| - 6 then url[6 + k] else '\0'
    {
      str[i] := if i < |url| - 6 then url[6 + i] else '\0';
    }
    assert str[..][0..|url| - 6] == url[6..][0..];
  }

  /** Printing canonical parts and parsing them in place gives them back. */
  method PrintThenParse(u: Url, argumentsGood: string -> bool) returns (v: Option<Url>)
    requires Canonical(u) && NoArguments(u) && '\0' !in Printed(u) && |Printed(u)| < 1024
    ensures v == Some(u)
  {
    hide Find, Printed, Parsed, Canonical;
    var url := "smb://" + Printed(u);
    assert url[6..] == Printed(u);
    WholeBody(Printed(u));
    UrlRoundTrip(u);
    BodyIsWhole(Printed(u));
    v := ParseUrl(url, argumentsGood);
  }

  lemma BodyIsWhole(s: string)
    requires Body(s) == s
    ensures Find(s, '?') == |s|
  {
  }

  /** A URL with every part, and one with only a server and a share. */
  lemma WholeUrl(domain: string, user: string, server: string, share: string, path: string)
    requires forall c :: c in domain || c in user || c in server || c in share ==> c !in {';', '@', '/'}
    ensures Parsed(domain + ";" + user + "@" + server + "/" + share + "/" + path)
         == Some(Url(Some(domain), Some(user), server, share, Some(path)))
    ensures Parsed(server + "/" + share) == Some(Url(None, None, server, share, None))
  {
    hide Parsed;
    var u, v := Url(Some(domain), Some(user), server, share, Some(path)), Url(None, None, server, share, None);
    PrintParses(u);
    PrintParses(v);
    assert Printed(u) == domain + ";" + user + "@" + server + "/" + share + "/" + path;
    assert Printed(v) == server + "/" + share;
  }
}
