/**
 The source policy's URL tests. The program compares strings; each test is proved equal to
 the comparison of host labels or path segments that it stands for.
 */
module UrlPolicy {
  import opened Strings

  // The parts of a URL that the policy reads, as the URL parser delivers them; absent parts are empty.
  datatype UrlParts = UrlParts(scheme: string, hostname: string, username: string, password: string, path: string)

  function LowerChar(c: char): char {
    if 'A' <= c <= 'Z' then c - 'A' + 'a' else c
  }

  function Lower(s: string): string {
    seq(|s|, i requires 0 <= i < |s| => LowerChar(s[i]))
  }

  function CleanHost(hostname: string): string {
    StripRight(Lower(hostname), '.')
  }

  predicate WebScheme(url: UrlParts) {
    (url.scheme == "http" || url.scheme == "https") && url.hostname != "" && url.username == "" && url.password == ""
  }

  predicate AllowedUrl(url: UrlParts, domains: set<string>) {
    && WebScheme(url)
    && exists domain :: domain in domains
         && (CleanHost(url.hostname) == domain || EndsWith(CleanHost(url.hostname), "." + domain))
  }

  predicate AllowedPath(url: UrlParts, prefixes: set<string>) {
    var path := if url.path == "" then "/" else url.path;
    exists prefix :: prefix in prefixes && MatchesPrefix(path, prefix)
  }

  predicate MatchesPrefix(path: string, prefix: string) {
    var normalized := if StripRight(prefix, '/') == "" then "/" else StripRight(prefix, '/');
    normalized == "/" || path == normalized || StartsWith(path, normalized + "/")
  }

  /* ---- What the tests mean ---- */

  function Labels(host: string): seq<string> {
    Split(host, '.')
  }

  /** The segments of a path; the empty path has none. */
  function Segments(path: string): seq<string> {
    if path == "" then [] else Split(path, '/')
  }

  /** A host compares in lower case and without trailing dots. */
  lemma CleanHostMeaning(hostname: string)
    ensures var host := CleanHost(hostname);
      && |host| <= |hostname| && (host != "" ==> host[|host| - 1] != '.')
      && (forall i :: |host| <= i < |hostname| ==> hostname[i] == '.')
      && forall i :: 0 <= i < |host| ==>
           if 'A' <= hostname[i] <= 'Z' then host[i] as int == hostname[i] as int + 32 else host[i] == hostname[i]
  {
    var lower := Lower(hostname);
    assert CleanHost(hostname) <= lower;
    forall i | |CleanHost(hostname)| <= i < |hostname|
      ensures hostname[i] == '.'
    {
      assert lower[i] == '.';
    }
  }

  /** The domain test holds iff the URL is a plain web URL and some allowed domain's labels end the host's labels. */
  lemma AllowedUrlMeansLabels(url: UrlParts, domains: set<string>)
    ensures AllowedUrl(url, domains) <==>
              && (url.scheme == "http" || url.scheme == "https") && url.hostname != ""
              && url.username == "" && url.password == ""
              && exists domain :: domain in domains && IsSuffix(Labels(domain), Labels(CleanHost(url.hostname)))
  {
    var host := CleanHost(url.hostname);
    forall domain | domain in domains
      ensures host == domain || EndsWith(host, "." + domain) <==> IsSuffix(Labels(domain), Labels(host))
    {
      SuffixParts(host, domain, '.');
    }
  }

  lemma PrefixMeansSegments(path: string, prefix: string)
    requires path != ""
    ensures MatchesPrefix(path, prefix) <==> Segments(StripRight(prefix, '/')) <= Segments(path)
  {
    var stripped := StripRight(prefix, '/');
    if stripped != "" {
      PrefixParts(path, stripped, '/');
      assert stripped != "/";
    }
  }

  /** The path test holds iff some approved prefix, without trailing slashes, is a leading run of whole segments. */
  lemma AllowedPathMeansSegments(url: UrlParts, prefixes: set<string>)
    ensures AllowedPath(url, prefixes) <==>
              exists prefix :: prefix in prefixes
                && Segments(StripRight(prefix, '/')) <= Segments(if url.path == "" then "/" else url.path)
  {
    var path := if url.path == "" then "/" else url.path;
    forall prefix | prefix in prefixes
      ensures MatchesPrefix(path, prefix) <==> Segments(StripRight(prefix, '/')) <= Segments(path)
    {
      PrefixMeansSegments(path, prefix);
    }
  }

  lemma SuffixOfAppend(d: seq<string>, f: seq<string>)
    ensures IsSuffix(d, d + f) <==> if |f| >= |d| then IsSuffix(d, f) else d == d[|f|..] + f
  {
    if |f| >= |d| {
      assert (d + f)[|f|..] == f[|f| - |d|..];
    } else {
      assert (d + f)[|f|..] == d[|f|..] + f;
    }
  }

  /**
   A host that has an allowed domain in front of a foreign one is admitted iff the domain happens to
   end it again: within the foreign part or, when that is shorter, overlapping itself.
   */
  lemma ForeignHostAdmittedIff(url: UrlParts, domain: string, foreign: string)
    requires CleanHost(url.hostname) == domain + "." + foreign
    ensures var (d, f) := (Labels(domain), Labels(foreign));
      AllowedUrl(url, {domain}) <==>
      WebScheme(url) && if |f| >= |d| then IsSuffix(d, f) else d == d[|f|..] + f
  {
    var (d, f) := (Labels(domain), Labels(foreign));
    AllowedUrlMeansLabels(url, {domain});
    SplitAppend(domain, foreign, '.');
    assert Labels(CleanHost(url.hostname)) == d + f;
    SuffixOfAppend(d, f);
  }

  /** In particular it is refused when neither part ends the other. */
  lemma ForeignHostRejected(url: UrlParts, domain: string, foreign: string)
    requires CleanHost(url.hostname) == domain + "." + foreign
    requires !IsSuffix(Labels(domain), Labels(foreign)) && !IsSuffix(Labels(foreign), Labels(domain))
    ensures !AllowedUrl(url, {domain})
  {
    var (d, f) := (Labels(domain), Labels(foreign));
    ForeignHostAdmittedIff(url, domain, foreign);
    if |f| < |d| {
      assert (d[|f|..] + f)[|d| - |f|..] == f;
    }
  }
}
