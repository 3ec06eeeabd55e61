/** Resource names ("projects/p/sites/s/services/v"), their slugs, and the short forms of the CLI. */
module Names {
  import opened Wrappers
  import opened Text

  // ----- slugs -----

  predicate SlugChar(c: char) {
    'a' <= c <= 'z' || '0' <= c <= '9'
  }

  datatype SlugError = BadLength | EdgeDash | DoubleDash | BadChar

  /** The scan of ValidateSlug from position i on: the first thing wrong, if any. */
  function ScanSlug(s: string, i: nat): Option<SlugError>
    requires i <= |s|
    decreases |s| - i
  {
    if i == |s| then None
    else if SlugChar(s[i]) then ScanSlug(s, i + 1)
    else if s[i] != '-' then Some(BadChar)
    else if i == 0 || i == |s| - 1 then Some(EdgeDash)
    else if s[i - 1] == '-' then Some(DoubleDash)
    else ScanSlug(s, i + 1)
  }

  function ValidateSlug(s: string): Option<SlugError> {
    if |s| < 1 || |s| > 64 then Some(BadLength) else ScanSlug(s, 0)
  }

  predicate Slug(s: string) {
    ValidateSlug(s).None?
  }

  predicate Word(s: string) {
    s != "" && forall i :: 0 <= i < |s| ==> 'a' <= s[i] <= 'z' || '0' <= s[i] <= '9'
  }

  /** One to sixty-four characters: words of letters and digits joined by single dashes. */
  predicate SlugGrammar(s: string) {
    1 <= |s| <= 64 && forall k :: 0 <= k < |Split(s, '-')| ==> Word(Split(s, '-')[k])
  }

  /** Every part is a word, where a word already begun before the first part may end at once. */
  predicate Words(parts: seq<string>, begun: bool)
    requires parts != []
  {
    && (forall k :: 1 <= k < |parts| ==> Word(parts[k]))
    && ((begun && parts[0] == "") || Word(parts[0]))
  }

  lemma WordsCons(c: char, rest: seq<string>, begun: bool)
    requires rest != [] && SlugChar(c)
    ensures Words([[c] + rest[0]] + rest[1..], begun) <==> Words(rest, true)
  {
    var parts := [[c] + rest[0]] + rest[1..];
    assert forall k :: 1 <= k < |rest| ==> parts[k] == rest[k];
    WordCons(c, rest[0]);
  }

  lemma WordsDash(rest: seq<string>, begun: bool)
    requires rest != []
    ensures Words([""] + rest, begun) <==> begun && Words(rest, false)
  {
    var parts := [""] + rest;
    assert forall k :: 0 <= k < |rest| ==> parts[k + 1] == rest[k];
    assert Words(parts, begun) ==> Word(parts[1]);
  }

  lemma WordCons(c: char, w: string)
    requires SlugChar(c)
    ensures Word([c] + w) <==> w == "" || Word(w)
  {
    assert ([c] + w)[0] == c;
    assert forall i :: 0 <= i < |w| ==> ([c] + w)[i + 1] == w[i];
  }

  predicate Begun(s: string, i: nat)
    requires i <= |s|
  {
    i > 0 && s[i - 1] != '-'
  }

  /** Scanning from i on accepts exactly when the rest is words. */
  lemma {:induction false} ScanIsGrammar(s: string, i: nat)
    requires i <= |s| && |s| > 0 && (i == |s| ==> Begun(s, i))
    ensures ScanSlug(s, i).None? <==> Words(Split(s[i..], '-'), Begun(s, i))
    decreases |s| - i
  {
    if i < |s| {
      assert s[i..][1..] == s[i + 1..];
      var rest := Split(s[i + 1..], '-');
      if SlugChar(s[i]) {
        ScanIsGrammar(s, i + 1);
        hide Words;
        WordsCons(s[i], rest, Begun(s, i));
      } else if s[i] == '-' {
        WordsDash(rest, Begun(s, i));
        if i == |s| - 1 {
          assert rest == [""];
        } else {
          ScanIsGrammar(s, i + 1);
        }
      } else {
        assert !Word([s[i]] + rest[0]) by {
          assert ([s[i]] + rest[0])[0] == s[i];
        }
      }
    }
  }

  lemma SlugIsGrammar(s: string)
    ensures Slug(s) <==> SlugGrammar(s)
  {
    if 1 <= |s| <= 64 {
      ScanIsGrammar(s, 0);
      assert s[0..] == s;
    }
  }

  lemma {:induction false} ScanChars(s: string, i: nat, c: char)
    requires i <= |s| && ScanSlug(s, i).None? && !SlugChar(c) && c != '-'
    ensures forall k :: i <= k < |s| ==> s[k] != c
    decreases |s| - i
  {
    if i < |s| {
      ScanChars(s, i + 1, c);
    }
  }

  /** A slug holds no slash, no underscore, no bar and no newline: the separators used around it. */
  lemma SlugFree(s: string, c: char)
    requires Slug(s) && !SlugChar(c) && c != '-'
    ensures Free(s, c)
  {
    ScanChars(s, 0, c);
  }

  // ----- resource names -----

  datatype SiteName = SiteName(project: string, site: string)

  datatype ServiceName = ServiceName(project: string, site: string, service: string)

  function FormatProjectName(slug: string): string {
    "projects/" + slug
  }

  function FormatSiteName(project: string, site: string): string {
    "projects/" + project + "/sites/" + site
  }

  function FormatServiceName(project: string, site: string, service: string): string {
    "projects/" + project + "/sites/" + site + "/services/" + service
  }

  function ParseProjectName(name: string): Option<string> {
    var parts := Split(name, '/');
    if |parts| != 2 || parts[0] != "projects" || !Slug(parts[1]) then None else Some(parts[1])
  }

  function ParseSiteName(name: string): Option<SiteName> {
    var parts := Split(name, '/');
    if |parts| != 4 || parts[0] != "projects" || parts[2] != "sites" || !Slug(parts[1]) || !Slug(parts[3]) then None
    else Some(SiteName(parts[1], parts[3]))
  }

  function ParseServiceName(name: string): Option<ServiceName> {
    var parts := Split(name, '/');
    if |parts| != 6 || parts[0] != "projects" || parts[2] != "sites" || parts[4] != "services"
       || !Slug(parts[1]) || !Slug(parts[3]) || !Slug(parts[5]) then None
    else Some(ServiceName(parts[1], parts[3], parts[5]))
  }

  lemma JoinTwo(a: string, b: string)
    ensures Join([a, b], '/') == a + "/" + b
  {
    assert [a, b][1..] == [b];
  }

  lemma JoinFour(a: string, b: string, c: string, d: string)
    ensures Join([a, b, c, d], '/') == a + "/" + b + "/" + c + "/" + d
  {
    JoinTwo(c, d);
    assert [b, c, d][1..] == [c, d];
    assert [a, b, c, d][1..] == [b, c, d];
  }

  lemma JoinSix(a: string, b: string, c: string, d: string, e: string, f: string)
    ensures Join([a, b, c, d, e, f], '/') == a + "/" + b + "/" + c + "/" + d + "/" + e + "/" + f
  {
    JoinFour(c, d, e, f);
    assert [b, c, d, e, f][1..] == [c, d, e, f];
    assert [a, b, c, d, e, f][1..] == [b, c, d, e, f];
  }

  lemma JoinedSite(p: string, s: string)
    ensures Join(["projects", p, "sites", s], '/') == FormatSiteName(p, s)
  {
    JoinFour("projects", p, "sites", s);
    hide Join;
    assert "projects" + "/" + p + "/" + "sites" + "/" + s == FormatSiteName(p, s);
  }

  lemma JoinedService(p: string, s: string, v: string)
    ensures Join(["projects", p, "sites", s, "services", v], '/') == FormatServiceName(p, s, v)
  {
    JoinSix("projects", p, "sites", s, "services", v);
    hide Join;
    assert "projects" + "/" + p + "/" + "sites" + "/" + s + "/" + "services" + "/" + v == FormatServiceName(p, s, v);
  }

  lemma FormattedSiteParts(p: string, s: string)
    requires Free(p, '/') && Free(s, '/')
    ensures Split(FormatSiteName(p, s), '/') == ["projects", p, "sites", s]
  {
    JoinedSite(p, s);
    hide Join, Split;
    SplitJoin(["projects", p, "sites", s], '/');
  }

  lemma FormattedServiceParts(p: string, s: string, v: string)
    requires Free(p, '/') && Free(s, '/') && Free(v, '/')
    ensures Split(FormatServiceName(p, s, v), '/') == ["projects", p, "sites", s, "services", v]
  {
    JoinedService(p, s, v);
    hide Join, Split;
    SplitJoin(["projects", p, "sites", s, "services", v], '/');
  }

  /** The parser accepts exactly the formatted names of valid slugs, and reads back what was formatted. */
  lemma ProjectNameExact(name: string, slug: string)
    ensures ParseProjectName(name) == Some(slug) <==> Slug(slug) && name == FormatProjectName(slug)
  {
    JoinSplit(name, '/');
    JoinTwo("projects", slug);
    assert "projects" + "/" + slug == FormatProjectName(slug);
    if Slug(slug) && name == FormatProjectName(slug) {
      SlugFree(slug, '/');
      SplitJoin(["projects", slug], '/');
    }
    if ParseProjectName(name) == Some(slug) {
      assert Split(name, '/') == ["projects", slug];
    }
  }

  lemma SiteNameExact(name: string, n: SiteName)
    ensures ParseSiteName(name) == Some(n) <==>
            Slug(n.project) && Slug(n.site) && name == FormatSiteName(n.project, n.site)
  {
    hide Join, Split, Slug, FormatSiteName;
    JoinSplit(name, '/');
    JoinedSite(n.project, n.site);
    if Slug(n.project) && Slug(n.site) && name == FormatSiteName(n.project, n.site) {
      SlugFree(n.project, '/');
      SlugFree(n.site, '/');
      FormattedSiteParts(n.project, n.site);
    }
    if ParseSiteName(name) == Some(n) {
      assert Split(name, '/') == ["projects", n.project, "sites", n.site];
    }
  }

  lemma ServiceNameExact(name: string, n: ServiceName)
    ensures ParseServiceName(name) == Some(n) <==>
            Slug(n.project) && Slug(n.site) && Slug(n.service) && name == FormatServiceName(n.project, n.site, n.service)
  {
    hide Join, Split, Slug, FormatServiceName;
    JoinSplit(name, '/');
    JoinedService(n.project, n.site, n.service);
    if Slug(n.project) && Slug(n.site) && Slug(n.service) && name == FormatServiceName(n.project, n.site, n.service) {
      SlugFree(n.project, '/');
      SlugFree(n.site, '/');
      SlugFree(n.service, '/');
      FormattedServiceParts(n.project, n.site, n.service);
    }
    if ParseServiceName(name) == Some(n) {
      assert Split(name, '/') == ["projects", n.project, "sites", n.site, "services", n.service];
    }
  }

  // ----- the CLI's short forms -----

  function CanonicalSiteName(s: string): Option<string> {
    var parts := Split(s, '/');
    if |parts| == 2 && parts[0] != "" && parts[1] != "" then Some(FormatSiteName(parts[0], parts[1]))
    else if |parts| == 4 && parts[0] == "projects" && parts[2] == "sites" && parts[1] != "" && parts[3] != "" then Some(s)
    else None
  }

  function CanonicalServiceName(s: string): Option<string> {
    var parts := Split(s, '/');
    if |parts| == 3 && parts[0] != "" && parts[1] != "" && parts[2] != "" then
      Some(FormatServiceName(parts[0], parts[1], parts[2]))
    else if |parts| == 6 && parts[0] == "projects" && parts[2] == "sites" && parts[4] == "services"
            && parts[1] != "" && parts[3] != "" && parts[5] != "" then Some(s)
    else None
  }

  function CanonicalProjectName(s: string): string {
    if "projects/" <= s then s else "projects/" + s
  }

  /** What the CLI takes for one part of a name: the server checks the rest. */
  predicate Segment(s: string) {
    s != "" && Free(s, '/')
  }

  predicate RefersToSite(s: string, t: string, p: string, q: string) {
    Segment(p) && Segment(q) && t == "projects/" + p + "/sites/" + q && (s == p + "/" + q || s == t)
  }

  /** A site is taken in its short or its long form, and turned into the long one; nothing else is taken. */
  lemma CanonicalSiteExact(s: string, t: string)
    ensures CanonicalSiteName(s) == Some(t) <==> exists p, q :: RefersToSite(s, t, p, q)
  {
    hide Split, Join, Free;
    if p, q :| RefersToSite(s, t, p, q) {
      JoinTwo(p, q);
      SplitJoin([p, q], '/');
      FormattedSiteParts(p, q);
    }
    if CanonicalSiteName(s) == Some(t) {
      var parts := Split(s, '/');
      JoinSplit(s, '/');
      if |parts| == 2 {
        JoinTwo(parts[0], parts[1]);
        assert parts == [parts[0], parts[1]];
        assert RefersToSite(s, t, parts[0], parts[1]);
      } else {
        JoinedSite(parts[1], parts[3]);
        assert parts == ["projects", parts[1], "sites", parts[3]];
        assert RefersToSite(s, t, parts[1], parts[3]);
      }
    }
  }

  predicate RefersToService(s: string, t: string, p: string, q: string, v: string) {
    Segment(p) && Segment(q) && Segment(v) && t == "projects/" + p + "/sites/" + q + "/services/" + v
    && (s == p + "/" + q + "/" + v || s == t)
  }

  /** The same of a service. */
  lemma CanonicalServiceExact(s: string, t: string)
    ensures CanonicalServiceName(s) == Some(t) <==> exists p, q, v :: RefersToService(s, t, p, q, v)
  {
    hide Split, Join, Free;
    if p, q, v :| RefersToService(s, t, p, q, v) {
      JoinThree(p, q, v);
      SplitJoin([p, q, v], '/');
      FormattedServiceParts(p, q, v);
    }
    if CanonicalServiceName(s) == Some(t) {
      var parts := Split(s, '/');
      JoinSplit(s, '/');
      if |parts| == 3 {
        JoinThree(parts[0], parts[1], parts[2]);
        assert parts == [parts[0], parts[1], parts[2]];
        assert RefersToService(s, t, parts[0], parts[1], parts[2]);
      } else {
        JoinedService(parts[1], parts[3], parts[5]);
        assert parts == ["projects", parts[1], "sites", parts[3], "services", parts[5]];
        assert RefersToService(s, t, parts[1], parts[3], parts[5]);
      }
    }
  }

  /** The short forms of slugs become the names that the server parses back to those slugs. */
  lemma ShortFormsParse(p: string, s: string, v: string)
    requires Slug(p) && Slug(s) && Slug(v)
    ensures ParseProjectName(CanonicalProjectName(p)) == Some(p)
    ensures CanonicalSiteName(p + "/" + s).Some? && ParseSiteName(CanonicalSiteName(p + "/" + s).value) == Some(SiteName(p, s))
    ensures CanonicalServiceName(p + "/" + s + "/" + v).Some?
    ensures ParseServiceName(CanonicalServiceName(p + "/" + s + "/" + v).value) == Some(ServiceName(p, s, v))
  {
    SlugFree(p, '/');
    SlugFree(s, '/');
    SlugFree(v, '/');
    assert p != "" && s != "" && v != "";
    assert "projects/"[8] == '/';
    assert !("projects/" <= p);
    hide Split, Join, Slug, FormatSiteName, FormatServiceName;
    ProjectNameExact(CanonicalProjectName(p), p);
    JoinTwo(p, s);
    SplitJoin([p, s], '/');
    SiteNameExact(FormatSiteName(p, s), SiteName(p, s));
    JoinThree(p, s, v);
    SplitJoin([p, s, v], '/');
    ServiceNameExact(FormatServiceName(p, s, v), ServiceName(p, s, v));
  }

  lemma JoinThree(a: string, b: string, c: string)
    ensures Join([a, b, c], '/') == a + "/" + b + "/" + c
  {
    JoinTwo(b, c);
    assert [a, b, c][1..] == [b, c];
  }

  /** Canonical forms are stable. */
  lemma CanonicalProjectStable(s: string)
    ensures CanonicalProjectName(CanonicalProjectName(s)) == CanonicalProjectName(s)
  {
    assert "projects/" <= "projects/" + s;
  }

  lemma CanonicalSiteStable(s: string)
    requires CanonicalSiteName(s).Some?
    ensures CanonicalSiteName(CanonicalSiteName(s).value) == CanonicalSiteName(s)
  {
    var parts := Split(s, '/');
    if |parts| == 2 {
      FormattedSiteParts(parts[0], parts[1]);
    }
  }

  lemma CanonicalServiceStable(s: string)
    requires CanonicalServiceName(s).Some?
    ensures CanonicalServiceName(CanonicalServiceName(s).value) == CanonicalServiceName(s)
  {
    var parts := Split(s, '/');
    if |parts| == 3 {
      FormattedServiceParts(parts[0], parts[1], parts[2]);
    }
  }

  // ----- operator names -----

  function FormatOperatorName(id: nat): string {
    "operators/" + Dec(id)
  }

  function ParseOperatorName(name: string): Option<nat> {
    if !("operators/" <= name) then None
    else
      var tail := name[10..];
      if tail == "" || !Free(tail, '/') then None else ParseUint(tail, MAX_UINT64)
  }

  lemma OperatorNameRoundTrip(id: nat)
    requires id <= MAX_UINT64
    ensures ParseOperatorName(FormatOperatorName(id)) == Some(id)
  {
    assert FormatOperatorName(id)[10..] == Dec(id);
    DigitsFree(Dec(id), '/');
    ParseFormat(id, MAX_UINT64);
  }

  /** An operator name is the prefix and a 64-bit number, leading zeros allowed. */
  lemma OperatorNameExact(name: string, id: nat)
    ensures ParseOperatorName(name) == Some(id) <==>
      id <= 0xFFFF_FFFF_FFFF_FFFF && |name| >= 10 && name[..10] == "operators/" && Reads(name[10..], id)
  {
    hide ParseUint;
    if |name| >= 10 && name[..10] == "operators/" {
      var tail := name[10..];
      ParseUintExact(tail, MAX_UINT64, id);
      if Reads(tail, id) {
        var z: nat :| tail == Zeros(z) + Dec(id);
        DigitsFree(tail, '/');
      }
    }
  }
}
