/**
 * The cookie scan of `IVwAdmin.GetTokenAsync` (src/IVwAdmin.cs): after the
 * admin login, the `VW_ADMIN` entry of the response's `Set-Cookie` headers
 * is the admin token. The HTTP request itself is not modelled; the headers
 * arrive as a parameter, `None` where the response has no `Set-Cookie`.
 */
module Admin {
  import opened Wrappers
  import opened InternalExtensions

  /** The admin session token, sent back later as the `VW_ADMIN` cookie. */
  datatype AdminToken = AdminToken(token: string)

  /** The name of the cookie that carries the token. */
  const AdminCookieName: string := "VW_ADMIN"

  // ---- Matching a key ----

  /** The invariant upper case of an ASCII letter; every other character is its own upper case. */
  function AsciiUpper(c: char): (r: char)
    ensures 'a' <= c <= 'z' ==> r as int == c as int - 32
    ensures !('a' <= c <= 'z') ==> r == c
  {
    if 'a' <= c <= 'z' then (c as int - 32) as char else c
  }

  /** `Equals(other, StringComparison.OrdinalIgnoreCase)` over ASCII letters: equal lengths, and equal character by character once upper-cased. */
  predicate EqualsIgnoreCase(a: string, b: string)
    ensures EqualsIgnoreCase(a, b) <==>
      |a| == |b| && forall i :: 0 <= i < |a| ==> AsciiUpper(a[i]) == AsciiUpper(b[i])
    decreases |a|
  {
    var r := |a| == |b| && (a == [] || (AsciiUpper(a[0]) == AsciiUpper(b[0]) && EqualsIgnoreCase(a[1..], b[1..])));
    assert |a| == |b| && a != [] ==> forall i :: 1 <= i < |a| ==> a[i] == a[1..][i - 1] && b[i] == b[1..][i - 1];
    r
  }

  /** The text with every ASCII letter upper-cased. */
  function UpperAscii(s: string): (r: string)
    ensures |r| == |s| && forall i :: 0 <= i < |s| ==> r[i] == AsciiUpper(s[i])
  {
    seq(|s|, i requires 0 <= i < |s| => AsciiUpper(s[i]))
  }

  /** Ignoring case is comparing the upper-cased texts. */
  lemma EqualsIgnoreCaseIsUpperEquality(a: string, b: string)
    ensures EqualsIgnoreCase(a, b) <==> UpperAscii(a) == UpperAscii(b)
  {
    if UpperAscii(a) == UpperAscii(b) {
      assert forall i :: 0 <= i < |a| ==> UpperAscii(a)[i] == UpperAscii(b)[i];
    }
  }

  // ---- Entries of one cookie ----

  /** One `key=value` entry of a cookie, both parts trimmed as the scan compares and returns them. */
  datatype CookieEntry = CookieEntry(key: string, value: string)

  /** An entry cut at its first '=': the key before it, the value after it ('=' and all); without a '=', an empty value. */
  function SplitEntry(entry: string): (r: CookieEntry)
    ensures '=' !in r.key
    ensures '=' !in entry ==> r.value == []
  {
    var (key, value) := TakeSkipToken(entry, '=');
    CookieEntry(Trim(key), Trim(value))
  }

  /** An entry written as `key=value`, with no '=' in the key, splits into that key and that value, trimmed. */
  lemma SplitEntryWritten(key: string, value: string)
    requires '=' !in key
    ensures SplitEntry(key + "=" + value) == CookieEntry(Trim(key), Trim(value))
  {
    TakeSkipTokenFirst(key, '=', value);
    assert key + "=" + value == key + ['='] + value;
  }

  /**
   * The entries the `while (!scan.IsEmpty)` loop visits in one cookie: the
   * text up to each ';' in turn; an empty remainder ends the scan, so a
   * trailing ';' adds no empty entry.
   */
  function CookieEntries(s: string): (r: seq<CookieEntry>)
    ensures s == [] <==> r == []
    decreases |s|
  {
    if s == [] then []
    else
      var (entry, rest) := TakeSkipToken(s, ';');
      [SplitEntry(entry)] + CookieEntries(rest)
  }

  /** Raw entries written back with ';' between them: the reference `CookieEntries` is checked against. */
  function JoinEntries(es: seq<string>): (r: string)
    ensures |es| <= 1 ==> r == (if es == [] then [] else es[0])
    decreases |es|
  {
    if es == [] then []
    else if |es| == 1 then es[0]
    else es[0] + ";" + JoinEntries(es[1..])
  }

  /** Each raw entry split on its own. */
  function SplitEntries(es: seq<string>): (r: seq<CookieEntry>)
    ensures |r| == |es|
    decreases |es|
  {
    if es == [] then [] else [SplitEntry(es[0])] + SplitEntries(es[1..])
  }

  /**
   * Scanning joined entries visits exactly those entries, as long as none
   * holds a ';' and the last is not empty (an empty last entry leaves a
   * trailing ';', which the scan drops).
   */
  lemma {:induction false} EntriesJoinRoundTrip(es: seq<string>)
    requires forall i :: 0 <= i < |es| ==> ';' !in es[i]
    requires es == [] || es[|es| - 1] != []
    ensures CookieEntries(JoinEntries(es)) == SplitEntries(es)
    decreases |es|
  {
    if |es| == 1 {
      assert ';' !in es[0];
      assert TakeSkipToken(es[0], ';') == (es[0], []);
    } else if |es| > 1 {
      var tail := es[1..];
      assert tail[|tail| - 1] == es[|es| - 1];
      EntriesJoinRoundTrip(tail);
      var j := JoinEntries(tail);
      var s := es[0] + [';'] + j;
      assert JoinEntries(es) == s;
      TakeSkipTokenFirst(es[0], ';', j);
      assert s != [];
      assert CookieEntries(s) == [SplitEntry(es[0])] + CookieEntries(j);
    }
  }

  /** The key test of the scan: the trimmed key is `VW_ADMIN`, ignoring case. */
  predicate IsAdmin(e: CookieEntry) {
    EqualsIgnoreCase(e.key, AdminCookieName)
  }

  // ---- The token of one cookie ----

  /** Some entry among `es` has the admin key. */
  predicate HasAdmin(es: seq<CookieEntry>) {
    exists k :: 0 <= k < |es| && IsAdmin(es[k])
  }

  /** The value of the first admin entry among `es`, if there is one. */
  function FirstAdminValue(es: seq<CookieEntry>): (r: Option<string>)
    ensures r.Some? <==> HasAdmin(es)
    ensures r.Some? ==> exists k :: 0 <= k < |es| && IsAdmin(es[k]) && es[k].value == r.value
    decreases |es|
  {
    if es == [] then None
    else if IsAdmin(es[0]) then Some(es[0].value)
    else
      var r := FirstAdminValue(es[1..]);
      assert forall k :: 1 <= k < |es| ==> es[k] == es[1..][k - 1];
      r
  }

  /** The value found is that of an admin entry no earlier admin entry precedes. */
  lemma {:induction false} FirstAdminValueIsFirst(es: seq<CookieEntry>, k: nat)
    requires k < |es| && IsAdmin(es[k]) && forall j :: 0 <= j < k ==> !IsAdmin(es[j])
    ensures FirstAdminValue(es) == Some(es[k].value)
    decreases k
  {
    if k > 0 {
      assert !IsAdmin(es[0]);
      assert forall j :: 0 <= j < k - 1 ==> es[1..][j] == es[j + 1];
      FirstAdminValueIsFirst(es[1..], k - 1);
    }
  }

  /**
   * What the scan of one cookie finds: the trimmed value of its first admin
   * entry, or nothing when no entry has the key.
   */
  function CookieToken(cookie: string): (r: Option<string>)
    ensures r.Some? <==> HasAdmin(CookieEntries(cookie))
  {
    FirstAdminValue(CookieEntries(cookie))
  }

  /**
   * The first value `find` gives for the cookies in order; later cookies
   * are not looked at. `FirstFound(cookies, CookieToken)` is the token of
   * the first cookie that has an admin entry.
   */
  function FirstFound<T>(xs: seq<T>, find: T -> Option<string>): (r: Option<string>)
    ensures r.None? <==> forall i :: 0 <= i < |xs| ==> find(xs[i]).None?
    decreases |xs|
  {
    if xs == [] then None
    else
      var t := find(xs[0]);
      if t.Some? then t
      else
        var r := FirstFound(xs[1..], find);
        assert forall j :: 1 <= j < |xs| ==> xs[j] == xs[1..][j - 1];
        r
  }

  /** The value found is that of the first element that has one, whatever the elements after it hold. */
  lemma {:induction false} FirstFoundWins<T>(xs: seq<T>, find: T -> Option<string>, i: nat)
    requires i < |xs| && find(xs[i]).Some?
    requires forall j :: 0 <= j < i ==> find(xs[j]).None?
    ensures FirstFound(xs, find) == find(xs[i])
    decreases i
  {
    if i > 0 {
      var tail := xs[1..];
      assert tail[i - 1] == xs[i];
      assert forall j :: 0 <= j < i - 1 ==> tail[j] == xs[j + 1];
      assert find(xs[0]).None?;
      FirstFoundWins(tail, find, i - 1);
    }
  }

  /** Once a value is found, elements after it change nothing; before one is found, the search goes on into them. */
  lemma {:induction false} FirstFoundAppend<T>(xs: seq<T>, more: seq<T>, find: T -> Option<string>)
    ensures FirstFound(xs, find).Some? ==> FirstFound(xs + more, find) == FirstFound(xs, find)
    ensures FirstFound(xs, find).None? ==> FirstFound(xs + more, find) == FirstFound(more, find)
    decreases |xs|
  {
    if xs != [] {
      assert (xs + more)[0] == xs[0];
      assert (xs + more)[1..] == xs[1..] + more;
      FirstFoundAppend(xs[1..], more, find);
    } else {
      assert xs + more == more;
    }
  }

  /** One more element searched: its value if it has one, otherwise still nothing found. */
  lemma FirstFoundStep<T>(xs: seq<T>, n: nat, find: T -> Option<string>)
    requires n < |xs| && FirstFound(xs[..n], find).None?
    ensures find(xs[n]).Some? ==> FirstFound(xs, find) == find(xs[n])
    ensures find(xs[n]).None? ==> FirstFound(xs[..n + 1], find).None?
  {
    FirstFoundAppend(xs[..n], [xs[n]], find);
    assert xs[..n + 1] == xs[..n] + [xs[n]];
    assert FirstFound([xs[n]], find) == find(xs[n]) by {
      assert [xs[n]][1..] == [];
    }
    FirstFoundAppend(xs[..n + 1], xs[n + 1..], find);
    assert xs[..n + 1] + xs[n + 1..] == xs;
  }

  /** What `GetTokenAsync` returns for the `Set-Cookie` values it found (`None`: no such header). */
  function TokenOf(cookies: Option<seq<string>>): (r: Result<AdminToken>)
    ensures cookies.None? ==> r == Err(TokenMissing)
    ensures r.Err? ==> r.error == TokenMissing
    ensures cookies.Some? ==> (r.Ok? <==> FirstFound(cookies.value, CookieToken).Some?)
    ensures r.Ok? ==> r.value.token == FirstFound(cookies.value, CookieToken).value
  {
    if cookies.None? then Err(TokenMissing)
    else
      var t := FirstFound(cookies.value, CookieToken);
      if t.None? then Err(TokenMissing) else Ok(AdminToken(t.value))
  }

  /** A cookie whose first entry is `key=value` with an admin key has the trimmed value as its token, '=' included, whatever follows. */
  lemma LeadingEntryToken(key: string, value: string, rest: string)
    requires '=' !in key && ';' !in key + "=" + value
    requires EqualsIgnoreCase(Trim(key), AdminCookieName)
    ensures CookieToken(key + "=" + value + ";" + rest) == Some(Trim(value))
  {
    var entry := key + "=" + value;
    var cookie := entry + ";" + rest;
    TakeSkipTokenFirst(entry, ';', rest);
    assert cookie == entry + [';'] + rest;
    assert CookieEntries(cookie) == [SplitEntry(entry)] + CookieEntries(rest);
    SplitEntryWritten(key, value);
  }

  /** A first cookie that starts with an admin entry gives the token, whatever the other cookies hold. */
  lemma LeadingAdminEntry(key: string, value: string, rest: string, more: seq<string>)
    requires '=' !in key && ';' !in key + "=" + value
    requires EqualsIgnoreCase(Trim(key), AdminCookieName)
    ensures TokenOf(Some([key + "=" + value + ";" + rest] + more)) == Ok(AdminToken(Trim(value)))
  {
    var cookie := key + "=" + value + ";" + rest;
    LeadingEntryToken(key, value, rest);
    assert ([cookie] + more)[0] == cookie;
    FirstFoundWins([cookie] + more, CookieToken, 0);
  }

  // ---- The scan ----

  /**
   * The inner loop of `GetTokenAsync` over one cookie: entry by entry until
   * the first admin entry, whose trimmed value is the token.
   */
  method ScanCookie(cookie: string) returns (token: Option<string>)
    ensures token == CookieToken(cookie)
  {
    var scan := cookie;
    while scan != []
      invariant FirstAdminValue(CookieEntries(scan)) == CookieToken(cookie)
      decreases |scan|
    {
      var (entry, next) := TakeSkipToken(scan, ';');
      var (key, value) := TakeSkipToken(entry, '=');
      assert CookieEntries(scan) == [CookieEntry(Trim(key), Trim(value))] + CookieEntries(next);
      if EqualsIgnoreCase(Trim(key), AdminCookieName) {
        return Some(Trim(value));
      }
      scan := next;
    }
    return None;
  }

  /**
   * The loops of `GetTokenAsync`: each cookie is scanned in turn; the first
   * admin entry ends both loops, and no token at the end is the "failed to
   * get token" exception, as is a missing header.
   */
  method GetToken(cookies: Option<seq<string>>) returns (r: Result<AdminToken>)
    ensures r == TokenOf(cookies)
  {
    if cookies.None? {
      return Err(TokenMissing);
    }
    var all := cookies.value;
    var token: Option<AdminToken> := None;
    var n := 0;
    while n < |all|
      invariant 0 <= n <= |all|
      invariant token.None? && FirstFound(all[..n], CookieToken).None?
    {
      var found := ScanCookie(all[n]);
      FirstFoundStep(all, n, CookieToken);
      n := n + 1;
      if found.Some? {
        token := Some(AdminToken(found.value));
        break;
      }
    }
    if token.None? {
      assert all[..n] == all;
      return Err(TokenMissing);
    }
    return Ok(token.value);
  }
}
