/** The sign-in callback (app/auth/callback/route.js): after the identity
    provider redirects back with a one-time code, the code is exchanged for
    a session and the browser is sent on to the page it asked for, with a
    cache-breaking `refresh` parameter, or to the error page. The code
    exchange is an input (whether it succeeds for a given code), and so are
    the deployment mode and the two clock readings. */
module AuthCallback {
  import opened JsValues
  import opened Text

  /** The parts of the incoming request the handler reads: the URL's origin,
      its `code` and `next` query parameters and the `x-forwarded-host`
      header; a parameter or header that is absent is `None` (`null`). */
  datatype Request = Request(origin: string, code: Option<string>, next: Option<string>, forwardedHost: Option<string>)

  /** A `null`-or-string value in a condition: only a non-empty string passes. */
  predicate Present(o: Option<string>) {
    o.Some? && o.value != ""
  }

  const ErrorPath := "/auth/auth-code-error"
  const RefreshKey := "refresh="

  /** `searchParams.get('next') ?? '/'`: only an absent parameter defaults;
      an empty one stays empty. */
  function NextPath(next: Option<string>): (r: string)
    ensures next.None? ==> r == "/"
    ensures next.Some? ==> r == next.value
  {
    match next
    case None => "/"
    case Some(p) => p
  }

  /** The base URL: the forwarded host over https outside development when
      the header is present, the request's own origin otherwise. */
  function BaseUrl(origin: string, forwardedHost: Option<string>, isDevelopment: bool): (r: string)
    ensures !isDevelopment && Present(forwardedHost) ==> r == "https://" + forwardedHost.value
    ensures isDevelopment || !Present(forwardedHost) ==> r == origin
  {
    if !isDevelopment && Present(forwardedHost) then "https://" + forwardedHost.value else origin
  }

  /** The separator before `refresh`: `&` when the path already has a query
      string, `?` otherwise. */
  function Separator(next: string): (r: char)
    ensures r == '&' <==> '?' in next
    ensures r == '?' <==> '?' !in next
  {
    ContainsChar(next, '?');
    if Contains(next, "?") then '&' else '?'
  }

  lemma ContainsChar(s: string, c: char)
    ensures Contains(s, [c]) <==> c in s
  {
    if c in s {
      var i :| 0 <= i < |s| && s[i] == c;
      assert OccursAt(s, [c], i);
    }
    if Contains(s, [c]) {
      var i :| 0 <= i <= |s| && OccursAt(s, [c], i);
      assert s[i] == s[i..i + 1][0];
    }
  }

  function FinalUrl(base: string, next: string, now: nat): string {
    base + next + [Separator(next)] + RefreshKey + NatToString(now)
  }

  /** `GET`: the redirect target. `refreshParam` reads the clock first
      (`unusedNow`) and is never used; the URL carries the second reading. */
  function Callback(req: Request, exchangeSucceeds: string -> bool, isDevelopment: bool, unusedNow: nat, now: nat): (r: string)
    ensures !Present(req.code) || !exchangeSucceeds(req.code.value) ==> r == req.origin + ErrorPath
    ensures Present(req.code) && exchangeSucceeds(req.code.value) ==>
      var base := BaseUrl(req.origin, req.forwardedHost, isDevelopment);
      var next := NextPath(req.next);
      && |r| == |base| + |next| + 1 + |RefreshKey| + |NatToString(now)|
      && r[..|base| + |next|] == base + next
      && r[|base| + |next|] == (if '?' in next then '&' else '?')
      && r[|base| + |next| + 1..] == RefreshKey + NatToString(now)
  {
    if Present(req.code) && exchangeSucceeds(req.code.value) then
      FinalUrl(BaseUrl(req.origin, req.forwardedHost, isDevelopment), NextPath(req.next), now)
    else
      req.origin + ErrorPath
  }

  /** The first clock reading has no effect on the redirect. */
  lemma FirstReadingUnused(req: Request, exchangeSucceeds: string -> bool, isDevelopment: bool, t1: nat, t1': nat, now: nat)
    ensures Callback(req, exchangeSucceeds, isDevelopment, t1, now) == Callback(req, exchangeSucceeds, isDevelopment, t1', now)
  {
  }

  /** Without a code the exchange is never attempted: the redirect is the
      error page whatever the exchange would have done. */
  lemma NoCodeNoExchange(req: Request, e1: string -> bool, e2: string -> bool, isDevelopment: bool, t1: nat, now: nat)
    requires !Present(req.code)
    ensures Callback(req, e1, isDevelopment, t1, now) == Callback(req, e2, isDevelopment, t1, now)
  {
  }

  /** Outside a successful exchange the forwarded host, the mode and the
      requested path play no part. */
  lemma ErrorIgnoresHostAndPath(req: Request, exchangeSucceeds: string -> bool, isDevelopment: bool, t1: nat, now: nat,
                                host: Option<string>, next: Option<string>)
    requires !Present(req.code) || !exchangeSucceeds(req.code.value)
    ensures Callback(req.(forwardedHost := host, next := next), exchangeSucceeds, !isDevelopment, t1, now)
         == Callback(req, exchangeSucceeds, isDevelopment, t1, now)
  {
  }

  /** The refresh parameter never opens a second query string: the redirect
      has as many `?` as the base and path together, plus one when the path
      had none. */
  lemma OneQueryString(base: string, next: string, now: nat)
    ensures multiset(FinalUrl(base, next, now))['?']
         == multiset(base)['?'] + multiset(next)['?'] + (if '?' in next then 0 else 1)
  {
    var digits := NatToString(now);
    NoQuestionMark(digits);
    assert multiset(RefreshKey)['?'] == 0;
    assert multiset(next)['?'] > 0 <==> '?' in next;
    var sep := [Separator(next)];
    assert multiset(sep)['?'] == (if '?' in next then 0 else 1);
    assert multiset(FinalUrl(base, next, now))
        == multiset(base) + multiset(next) + multiset(sep) + multiset(RefreshKey) + multiset(digits);
  }

  /** A decimal number has no `?`. */
  lemma NoQuestionMark(digits: string)
    requires AllDigits(digits)
    ensures multiset(digits)['?'] == 0
  {
    forall i | 0 <= i < |digits|
      ensures digits[i] != '?'
    {
      assert IsDigit(digits[i]);
    }
  }

  /** The timestamp can be read back from the redirect: what follows the
      last `=` is the decimal form of the second clock reading. */
  lemma TimestampReadsBack(base: string, next: string, now: nat)
    ensures var url := FinalUrl(base, next, now);
      var digits := url[|url| - |NatToString(now)|..];
      AllDigits(digits) && DigitsValue(digits) == now
  {
    var url := FinalUrl(base, next, now);
    assert url[|url| - |NatToString(now)|..] == NatToString(now);
    NatToStringValue(now);
  }
}
