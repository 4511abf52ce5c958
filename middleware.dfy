/** The route guard (src/middleware.ts): which requests the middleware sees (`config.matcher`)
    and what it answers: sign in first, administrators only, or go on. */
module Middleware {
  import opened Common

  /** `NextResponse.next()` or `NextResponse.redirect(...)`; a location is a path with its
      query, on the request's own origin. */
  datatype Decision = Next | Redirect(location: string)

  // ---- string tests on `pathname`

  predicate StartsWith(s: string, prefix: string) {
    prefix <= s
  }

  /** `s.includes(part)`. */
  predicate Contains(s: string, part: string)
    decreases |s|
  {
    part <= s || (s != [] && Contains(s[1..], part))
  }

  /** `part` occurring at any position is found. */
  lemma {:induction false} ContainsAt(s: string, part: string, i: nat)
    requires i + |part| <= |s| && s[i..i + |part|] == part
    ensures Contains(s, part)
    decreases i
  {
    if i > 0 {
      assert s[1..][i - 1..i - 1 + |part|] == s[i..i + |part|];
      ContainsAt(s[1..], part, i - 1);
    }
  }

  // ---- encodeURIComponent

  /** The characters `encodeURIComponent` leaves as they are. */
  predicate Unreserved(c: char) {
    ('A' <= c <= 'Z') || ('a' <= c <= 'z') || ('0' <= c <= '9')
    || c == '-' || c == '_' || c == '.' || c == '!' || c == '~' || c == '*' || c == '\'' || c == '(' || c == ')'
  }

  function HexDigit(n: nat): (c: char)
    requires n < 16
    ensures Unreserved(c)
  {
    "0123456789ABCDEF"[n]
  }

  /** The UTF-8 bytes of a character. */
  function Utf8(c: char): (bytes: seq<nat>)
    ensures 1 <= |bytes| <= 4
    ensures forall i :: 0 <= i < |bytes| ==> bytes[i] < 256
    ensures (c as int) < 0x80 <==> |bytes| == 1
  {
    var n := c as int;
    if n < 0x80 then [n]
    else if n < 0x800 then [0xC0 + n / 0x40, 0x80 + n % 0x40]
    else if n < 0x1_0000 then [0xE0 + n / 0x1000, 0x80 + (n / 0x40) % 0x40, 0x80 + n % 0x40]
    else [0xF0 + n / 0x4_0000, 0x80 + (n / 0x1000) % 0x40, 0x80 + (n / 0x40) % 0x40, 0x80 + n % 0x40]
  }

  /** `%XY` for each byte, with upper-case hexadecimal digits. */
  function PercentBytes(bytes: seq<nat>): (r: string)
    requires forall i :: 0 <= i < |bytes| ==> bytes[i] < 256
    ensures |r| == 3 * |bytes|
    ensures forall i :: 0 <= i < |r| ==> r[i] == '%' || Unreserved(r[i])
  {
    if bytes == [] then []
    else ['%', HexDigit(bytes[0] / 16), HexDigit(bytes[0] % 16)] + PercentBytes(bytes[1..])
  }

  /** How one character is written: itself when unreserved, otherwise its UTF-8 bytes
      percent-encoded. */
  function EncodeChar(c: char): (r: string)
    ensures |r| >= 1
    ensures forall i :: 0 <= i < |r| ==> r[i] == '%' || Unreserved(r[i])
  {
    if Unreserved(c) then [c] else PercentBytes(Utf8(c))
  }

  /** `encodeURIComponent(s)`: the result holds only unreserved characters and `%`, so no
      `/`, `?`, `&`, `#` or `=` of the path survives into the query string. */
  function EncodeURIComponent(s: string): (r: string)
    ensures |r| >= |s|
    ensures forall i :: 0 <= i < |r| ==> r[i] == '%' || Unreserved(r[i])
  {
    if s == [] then [] else EncodeChar(s[0]) + EncodeURIComponent(s[1..])
  }

  /** A string of unreserved characters is its own encoding. */
  lemma {:induction false} EncodeKeepsUnreserved(s: string)
    requires forall i :: 0 <= i < |s| ==> Unreserved(s[i])
    ensures EncodeURIComponent(s) == s
  {
    if s != [] {
      EncodeKeepsUnreserved(s[1..]);
    }
  }

  /** A slash is escaped as `%2F`. */
  lemma EncodeSlash(rest: string)
    ensures EncodeURIComponent("/" + rest) == "%2F" + EncodeURIComponent(rest)
  {
    assert ("/" + rest)[0] == '/' && ("/" + rest)[1..] == rest;
    assert EncodeChar('/') == "%2F" by {
      assert Utf8('/') == [47];
      assert HexDigit(2) == '2' && HexDigit(15) == 'F';
    }
  }

  /** Encoding works character by character, so it distributes over concatenation. */
  lemma {:induction false} EncodeAppend(a: string, b: string)
    ensures EncodeURIComponent(a + b) == EncodeURIComponent(a) + EncodeURIComponent(b)
  {
    if a == [] {
      assert a + b == b;
    } else {
      var ab := a + b;
      assert ab[0] == a[0] && ab[1..] == a[1..] + b;
      EncodeAppend(a[1..], b);
      var head := EncodeChar(a[0]);
      calc {
        EncodeURIComponent(ab);
        head + EncodeURIComponent(a[1..] + b);
        head + (EncodeURIComponent(a[1..]) + EncodeURIComponent(b));
        (head + EncodeURIComponent(a[1..])) + EncodeURIComponent(b);
        EncodeURIComponent(a) + EncodeURIComponent(b);
      }
    }
  }

  // ---- the guard

  predicate IsAdminRoute(path: string) { StartsWith(path, "/admin") }

  /** The paths a signed-out visitor is sent away from. */
  predicate Protected(path: string) {
    IsAdminRoute(path) || StartsWith(path, "/dashboard") || StartsWith(path, "/profile") || Contains(path, "/learn")
  }

  /** Where a signed-out visitor is sent: the home page, with the path to return to. */
  function SignInRedirect(path: string): string {
    "/?callbackUrl=" + EncodeURIComponent(path)
  }

  /** The `auth((req) => ...)` callback; `session` is `req.auth`. */
  function Guard(path: string, session: Option<Session>): Decision {
    if session.None? && Protected(path) then Redirect(SignInRedirect(path))
    else if session.Some? && IsAdminRoute(path) && session.value.role != Admin then Redirect("/dashboard")
    else Next
  }

  /** A signed-out request to a protected path is sent to sign in, with the path as the one
      and only query parameter. */
  lemma SignedOutRedirected(path: string)
    requires Protected(path)
    ensures Guard(path, None) == Redirect(SignInRedirect(path))
    ensures forall i :: |"/?callbackUrl="| <= i < |SignInRedirect(path)| ==>
              SignInRedirect(path)[i] !in {'&', '#', '?', '=', '/'}
  {
    var encoded := EncodeURIComponent(path);
    forall i | |"/?callbackUrl="| <= i < |SignInRedirect(path)|
      ensures SignInRedirect(path)[i] !in {'&', '#', '?', '=', '/'}
    {
      assert SignInRedirect(path)[i] == encoded[i - |"/?callbackUrl="|];
    }
  }

  /** A signed-out request anywhere else goes on. */
  lemma SignedOutElsewhere(path: string)
    requires !Protected(path)
    ensures Guard(path, None) == Next
  {
  }

  /** A signed-in user who is not an administrator is sent from admin pages to the
      dashboard, and let through everywhere else. */
  lemma NonAdminKeptOutOfAdmin(path: string, session: Session)
    requires session.role != Admin
    ensures Guard(path, Some(session)) == (if IsAdminRoute(path) then Redirect("/dashboard") else Next)
  {
  }

  /** An administrator is never redirected. */
  lemma AdminNeverRedirected(path: string, session: Session)
    requires session.role == Admin
    ensures Guard(path, Some(session)) == Next
  {
  }

  // ---- config.matcher

  /** The length of the path segment `t` starts with (up to the next `/`). */
  function SegmentLength(t: string): (n: nat)
    ensures n <= |t|
    ensures forall i :: 0 <= i < n ==> t[i] != '/'
    ensures n < |t| ==> t[n] == '/'
  {
    if t == [] || t[0] == '/' then 0 else 1 + SegmentLength(t[1..])
  }

  /** The segment length is the position of the first `/`, or the whole length. */
  lemma {:induction false} SegmentLengthIs(t: string, n: nat)
    requires n <= |t| && (forall i :: 0 <= i < n ==> t[i] != '/') && (n < |t| ==> t[n] == '/')
    ensures SegmentLength(t) == n
  {
    if n > 0 {
      SegmentLengthIs(t[1..], n - 1);
    }
  }

  /** `(/:segment)*` with an optional trailing slash. */
  predicate Segments(t: string)
    decreases |t|
  {
    t == [] || t == "/"
    || (|t| >= 2 && t[0] == '/' && t[1] != '/' && Segments(t[1 + SegmentLength(t[1..])..]))
  }

  /** Zero or more `/:segment`, then `/learn`, with an optional trailing slash. */
  predicate LearnTail(t: string)
    decreases |t|
  {
    t == "/learn" || t == "/learn/"
    || (|t| >= 2 && t[0] == '/' && t[1] != '/' && LearnTail(t[1 + SegmentLength(t[1..])..]))
  }

  /** `config.matcher`: the admin, dashboard and profile trees (`:path*` after the prefix) and
      any course learn page (`:path*` between `/courses` and `/learn`). */
  predicate Matched(path: string) {
    || (StartsWith(path, "/admin") && Segments(path[|"/admin"|..]))
    || (StartsWith(path, "/dashboard") && Segments(path[|"/dashboard"|..]))
    || (StartsWith(path, "/profile") && Segments(path[|"/profile"|..]))
    || (StartsWith(path, "/courses") && LearnTail(path[|"/courses"|..]))
  }

  /** The middleware as deployed: the guard runs only on matched paths. */
  function Handle(path: string, session: Option<Session>): (d: Decision)
    ensures !Matched(path) ==> d == Next
  {
    if Matched(path) then Guard(path, session) else Next
  }

  /** A learn-page path ends in `/learn`. */
  lemma {:induction false} LearnTailContainsLearn(t: string)
    requires LearnTail(t)
    ensures Contains(t, "/learn")
    decreases |t|
  {
    if t == "/learn" || t == "/learn/" {
      assert t[0..|"/learn"|] == "/learn";
      ContainsAt(t, "/learn", 0);
    } else {
      var k := 1 + SegmentLength(t[1..]);
      LearnTailContainsLearn(t[k..]);
      ContainsSuffix(t, k, "/learn");
    }
  }

  /** What a suffix contains, the whole string contains. */
  lemma {:induction false} ContainsSuffix(s: string, k: nat, part: string)
    requires k <= |s| && Contains(s[k..], part)
    ensures Contains(s, part)
    decreases k
  {
    if k > 0 {
      assert s[1..][k - 1..] == s[k..];
      ContainsSuffix(s[1..], k - 1, part);
    }
  }

  /** Every matched path is one the guard protects, so a signed-out visitor never reaches a
      matched page. */
  lemma MatchedIsProtected(path: string)
    requires Matched(path)
    ensures Protected(path)
  {
    if !(StartsWith(path, "/admin") || StartsWith(path, "/dashboard") || StartsWith(path, "/profile")) {
      LearnTailContainsLearn(path[|"/courses"|..]);
      ContainsSuffix(path, |"/courses"|, "/learn");
    }
  }

  /** The guard's tests are wider than the matcher: `/administrator` starts with `/admin`,
      so the guard would send a signed-out visitor away, yet the middleware never runs on it. */
  lemma GuardWiderThanMatcher()
    ensures Protected("/administrator")
    ensures !Matched("/administrator")
    ensures Handle("/administrator", None) == Next
  {
    var path := "/administrator";
    assert StartsWith(path, "/admin");
    assert path[|"/admin"|..] == "istrator";
    assert !Segments("istrator") by {
      assert "istrator"[0] != '/';
    }
    assert path[1] == 'a';
  }

  /** A course's learn page is in the matcher's scope. */
  lemma LearnPageMatched()
    ensures Matched("/courses/c1/learn")
  {
    var path := "/courses/c1/learn";
    assert StartsWith(path, "/courses");
    var t := path[|"/courses"|..];
    assert t == "/c1/learn";
    SegmentLengthIs(t[1..], 2);
    assert t[3..] == "/learn";
  }

  /** A course's overview page is not. */
  lemma CoursePageNotMatched()
    ensures !Matched("/courses/c1")
  {
    var path := "/courses/c1";
    assert path[1] == 'c';
    var t := path[|"/courses"|..];
    assert t == "/c1";
    SegmentLengthIs(t[1..], 2);
    assert t[3..] == [] && !LearnTail([]);
    assert |t| != |"/learn"| && |t| != |"/learn/"|;
  }
}
