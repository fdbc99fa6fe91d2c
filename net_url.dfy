/** A simplified model of the parts of Go's `net/url` package the crawler
    relies on: `url.Parse`, `(*URL).String` and `(*URL).ResolveReference`
    (reference resolution, section 5.2 of RFC 3986). Strings are kept in
    their escaped form; user information, port checks and dot-segment
    removal are not modelled. */
module NetUrl {
  import opened Wrappers

  /** A parsed URL: `scheme:opaquePart?query#fragment` or
      `scheme://host/path?query#fragment`. */
  datatype Url = Url(
    scheme: string,
    opaquePart: string,
    host: string,
    path: string,
    forceQuery: bool,
    rawQuery: string,
    fragment: string)
  {
    /** Reassembles the URL as `URL.String` does. */
    function String(): (s: string)
      ensures opaquePart == "" && scheme == "" && host == "" && path == "" && !forceQuery && rawQuery == ""
        ==> s == (if fragment != "" then "#" + fragment else "")
      ensures scheme != "" ==> |s| > |scheme| && s[..|scheme|] == scheme && s[|scheme|] == ':'
    {
      var head := if scheme != "" then scheme + ":" else "";
      var body :=
        if opaquePart != "" then opaquePart
        else
          var auth := if scheme != "" || host != "" then (if host != "" || path != "" then "//" else "") + host else "";
          var sep := if path != "" && path[0] != '/' && host != "" then "/" else "";
          var dot := if head + auth + sep == "" && ColonInFirstSegment(path) then "./" else "";
          auth + sep + dot + path;
      var query := if forceQuery || rawQuery != "" then "?" + rawQuery else "";
      var frag := if fragment != "" then "#" + fragment else "";
      head + body + query + frag
    }
  }

  /** The URL with every component empty: what `url.Parse("")` returns. */
  const Empty := Url("", "", "", "", false, "", "")

  predicate IsLetter(c: char) { 'a' <= c <= 'z' || 'A' <= c <= 'Z' }

  predicate IsDigit(c: char) { '0' <= c <= '9' }

  predicate IsHex(c: char) { IsDigit(c) || 'a' <= c <= 'f' || 'A' <= c <= 'F' }

  /** An ASCII control character (below 0x20, or DEL). */
  predicate IsCtl(c: char) { c as int < 0x20 || c as int == 0x7f }

  /** `stringContainsCTLByte`. */
  predicate HasCtl(s: string)
  {
    s != [] && (IsCtl(s[0]) || HasCtl(s[1..]))
  }

  predicate HasPrefix(s: string, p: string) { |p| <= |s| && s[..|p|] == p }

  /** Every `%` starts an escape of two hexadecimal digits, as `unescape`
      demands; the scan resumes after each escape. */
  predicate ValidEscapes(s: string)
  {
    if s == [] then true
    else if s[0] == '%' then 3 <= |s| && IsHex(s[1]) && IsHex(s[2]) && ValidEscapes(s[3..])
    else ValidEscapes(s[1..])
  }

  /** An ASCII character that `shouldEscape` says must be escaped in a host
      and that can reach the host test: `/`, `?` and `#` end the host before
      it, `@` ends the user information, and `%` starts an escape. */
  predicate ForbiddenInHost(c: char)
  {
    c == ' ' || c == '\\' || c == '^' || c == '`' || c == '{' || c == '|' || c == '}'
  }

  /** `unescape(host, encodeHost)` succeeds: every `%` starts an escape of two
      hexadecimal digits, an escape of an ASCII byte is only allowed as `%25`,
      and no character of `ForbiddenInHost` appears. */
  predicate ValidHost(s: string)
  {
    if s == [] then true
    else if s[0] == '%' then
      && 3 <= |s| && IsHex(s[1]) && IsHex(s[2])
      && ('0' <= s[1] <= '7' ==> s[1] == '2' && s[2] == '5')
      && ValidHost(s[3..])
    else !ForbiddenInHost(s[0]) && ValidHost(s[1..])
  }

  /** The host of an authority: the text after its last `@`. */
  function HostOf(authority: string): (h: string)
    ensures |h| <= |authority| && '@' !in h
  {
    authority[LastIndexOf(authority, '@') + 1..]
  }

  function LowerChar(c: char): (r: char)
  {
    if 'A' <= c <= 'Z' then (c as int - 'A' as int + 'a' as int) as char else c
  }

  /** ASCII lower-casing, which is all `strings.ToLower` does to a scheme. */
  function Lower(s: string): (r: string)
    ensures |r| == |s|
  {
    if s == [] then [] else [LowerChar(s[0])] + Lower(s[1..])
  }

  /** Index of the last `c` in `s`, or -1 when there is none. */
  function LastIndexOf(s: string, c: char): (i: int)
    ensures -1 <= i < |s|
    ensures i >= 0 ==> s[i] == c
    ensures forall k :: i < k < |s| ==> s[k] != c
  {
    if s == [] then -1
    else if s[|s| - 1] == c then |s| - 1
    else LastIndexOf(s[..|s| - 1], c)
  }

  /** `strings.Cut`: the text before and after the first `c`, and whether it
      occurs. */
  function Cut(s: string, c: char): (r: (string, string, bool))
    ensures r.2 ==> s == r.0 + [c] + r.1
    ensures !r.2 ==> r.0 == s && r.1 == ""
  {
    if s == [] then ("", "", false)
    else if s[0] == c then ("", s[1..], true)
    else
      var t := Cut(s[1..], c);
      ([s[0]] + t.0, t.1, t.2)
  }

  /** `Cut` splits at the first `c`: there is none before the split, and
      none at all when it reports that `c` does not occur. */
  lemma {:induction false} CutAtFirst(s: string, c: char)
    ensures var r := Cut(s, c);
      (r.2 <==> c in s) && c !in r.0
  {
    if s != [] && s[0] != c {
      CutAtFirst(s[1..], c);
      assert s == [s[0]] + s[1..];
    }
  }

  /** The first segment of `path` (up to the first `/`) contains a `:`. */
  predicate ColonInFirstSegment(path: string)
  {
    path != [] && path[0] != '/' && (path[0] == ':' || ColonInFirstSegment(path[1..]))
  }

  /** `ColonInFirstSegment` is `strings.Contains` of the first half of
      `strings.Cut(path, "/")`. */
  lemma {:induction false} ColonInFirstSegmentIsCut(path: string)
    ensures ColonInFirstSegment(path) <==> ':' in Cut(path, '/').0
  {
    if path != [] && path[0] != '/' {
      ColonInFirstSegmentIsCut(path[1..]);
      assert Cut(path, '/').0 == [path[0]] + Cut(path[1..], '/').0;
    }
  }

  /** `getScheme`, scanning from index `i`. `None` stands for the "missing
      protocol scheme" error. */
  function SchemeScan(raw: string, i: nat): (r: Option<(string, string)>)
    requires i <= |raw|
    ensures r.None? <==> i == 0 && |raw| > 0 && raw[0] == ':'
    ensures r.Some? ==> r.value == ("", raw) || (r.value.0 != "" && raw == r.value.0 + ":" + r.value.1)
    decreases |raw| - i
  {
    if i == |raw| then Some(("", raw))
    else
      var c := raw[i];
      if IsLetter(c) then SchemeScan(raw, i + 1)
      else if IsDigit(c) || c == '+' || c == '-' || c == '.' then
        if i == 0 then Some(("", raw)) else SchemeScan(raw, i + 1)
      else if c == ':' then
        if i == 0 then None
        else
          assert raw == raw[..i] + ":" + raw[i + 1..];
          Some((raw[..i], raw[i + 1..]))
      else Some(("", raw))
  }

  function GetScheme(raw: string): (r: Option<(string, string)>)
    ensures r.None? <==> |raw| > 0 && raw[0] == ':'
  {
    SchemeScan(raw, 0)
  }

  /** `url.Parse` of the text before the first `#`. */
  function ParseNoFragment(raw: string): (r: Option<Url>)
    ensures r.Some? ==> r.value.fragment == "" && ValidHost(HostOf(r.value.host))
  {
    if HasCtl(raw) then None
    else if raw == "*" then Some(Empty.(path := "*"))
    else match GetScheme(raw)
      case None => None
      case Some((sch, rest0)) =>
        var scheme := Lower(sch);
        var qs := Cut(rest0, '?');
        var forceQuery := qs.2 && qs.1 == "";
        var rest := qs.0;
        var query := qs.1;
        if !HasPrefix(rest, "/") && scheme != "" then
          Some(Empty.(scheme := scheme, opaquePart := rest, forceQuery := forceQuery, rawQuery := query))
        else if !HasPrefix(rest, "/") && ColonInFirstSegment(rest) then None
        else if (scheme != "" || !HasPrefix(rest, "///")) && HasPrefix(rest, "//") then
          var authority := Cut(rest[2..], '/');
          var path := if authority.2 then "/" + authority.1 else "";
          if !ValidEscapes(authority.0) || !ValidHost(HostOf(authority.0)) || !ValidEscapes(path) then None
          else Some(Empty.(scheme := scheme, host := authority.0, path := path, forceQuery := forceQuery, rawQuery := query))
        else if !ValidEscapes(rest) then None
        else Some(Empty.(scheme := scheme, path := rest, forceQuery := forceQuery, rawQuery := query))
  }

  /** `url.Parse`: splits off the fragment and parses the rest. Only the
      text before the first `#` is checked for control characters; the
      fragment is checked only for its `%` escapes. */
  function Parse(raw: string): (r: Option<Url>)
    ensures HasCtl(Cut(raw, '#').0) ==> r.None?
    ensures r.Some? ==> r.value.fragment == Cut(raw, '#').1
    ensures r.Some? ==> ValidEscapes(r.value.fragment)
  {
    var parts := Cut(raw, '#');
    match ParseNoFragment(parts.0)
    case None => None
    case Some(u) => if ValidEscapes(parts.1) then Some(u.(fragment := parts.1)) else None
  }

  /** Text that starts with `c` is cut right there. */
  lemma CutLeading(c: char, rest: string)
    ensures Cut([c] + rest, c) == ("", rest, true)
  {
    assert ([c] + rest)[1..] == rest;
  }

  /** The empty text parses to the empty URL. */
  lemma ParseNoFragmentEmpty()
    ensures ParseNoFragment("") == Some(Empty)
  {
    assert GetScheme("") == Some(("", ""));
    assert Cut("", '?') == ("", "", false);
  }

  /** A reference that is only `#` and a well-escaped fragment parses to the
      empty URL with that fragment. */
  lemma ParseFragmentOnly(frag: string)
    requires ValidEscapes(frag)
    ensures Parse("#" + frag) == Some(Empty.(fragment := frag))
  {
    ParseNoFragmentEmpty();
    CutLeading('#', frag);
  }

  /** A bare `#` parses to the empty reference. */
  lemma ParseBareHash()
    ensures Parse("#") == Some(Empty)
  {
    ParseFragmentOnly("");
    assert "#" + "" == "#";
  }

  /** A host that passes `ValidHost` contains none of the forbidden
      characters, outside its escapes as well as inside them. */
  lemma {:induction false} ValidHostAllowed(s: string)
    requires ValidHost(s)
    ensures forall i :: 0 <= i < |s| ==> !ForbiddenInHost(s[i])
  {
    if s != [] {
      var k := if s[0] == '%' then 3 else 1;
      ValidHostAllowed(s[k..]);
      forall i | 0 <= i < |s|
        ensures !ForbiddenInHost(s[i])
      {
        if i >= k {
          assert s[i] == s[k..][i - k];
        }
      }
    }
  }

  /** `url.Parse` refuses a host with a space, `\`, `^`, a backquote, `{`,
      `|` or `}` in it: every URL it returns has a host free of them. */
  lemma ParsedHostAllowed(raw: string)
    requires Parse(raw).Some?
    ensures ValidHost(HostOf(Parse(raw).value.host))
    ensures var h := HostOf(Parse(raw).value.host);
      forall i :: 0 <= i < |h| ==> !ForbiddenInHost(h[i])
  {
    var u := ParseNoFragment(Cut(raw, '#').0).value;
    assert Parse(raw).value.host == u.host;
    ValidHostAllowed(HostOf(u.host));
  }

  /** `resolvePath` without dot-segment removal: the merge of section 5.2.3
      of RFC 3986, with exactly one leading `/` on a non-empty result. */
  function ResolvePath(base: string, ref: string): (p: string)
    ensures p == "" || p[0] == '/'
  {
    var full :=
      if ref == "" then base
      else if ref[0] != '/' then base[..LastIndexOf(base, '/') + 1] + ref
      else ref;
    if full == "" then ""
    else if full[0] == '/' then full
    else "/" + full
  }

  /** `base.ResolveReference(ref)`, section 5.2.2 of RFC 3986. */
  function ResolveReference(base: Url, ref: Url): (r: Url)
    ensures r.scheme == if ref.scheme != "" then ref.scheme else base.scheme
    ensures ref.scheme != "" || ref.host != "" ==> r.host == ref.host
    ensures ref.scheme == "" && ref.host == "" && ref.opaquePart == "" ==> r.host == base.host
  {
    var scheme := if ref.scheme == "" then base.scheme else ref.scheme;
    if ref.scheme != "" || ref.host != "" then
      ref.(scheme := scheme, path := ResolvePath(ref.path, ""))
    else if ref.opaquePart != "" then
      ref.(scheme := scheme, host := "", path := "")
    else
      var keepQuery := ref.path == "" && !ref.forceQuery && ref.rawQuery == "";
      ref.(scheme := scheme,
           host := base.host,
           path := ResolvePath(base.path, ref.path),
           rawQuery := if keepQuery then base.rawQuery else ref.rawQuery,
           fragment := if keepQuery && ref.fragment == "" then base.fragment else ref.fragment)
  }

  /** Resolving the empty reference against a page gives the page back,
      when the page is not opaque, has no bare `?` and a rooted or empty
      path. */
  lemma ResolveEmptyReference(base: Url)
    requires base.opaquePart == "" && !base.forceQuery && (base.path == "" || base.path[0] == '/')
    ensures ResolveReference(base, Empty) == base
  {
    assert ResolvePath(base.path, "") == base.path;
  }
}
