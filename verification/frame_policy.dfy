/** The frameability decision of netlify/functions/metadata.js: whether a page forbids being
    shown in a cross-origin frame, from its `X-Frame-Options` (RFC 7034, section 2.1) and
    `Content-Security-Policy` response headers. The policy test is a plain substring test,
    not the `frame-ancestors` grammar of CSP Level 3 (section 6.4.2). */
module FramePolicy {
  import opened Wrappers
  import opened Strings

  /** A header value JavaScript treats as true: present and not empty. */
  predicate Truthy(h: Option<string>) {
    h.Some? && h.value != ""
  }

  /** `X-Frame-Options` upper-cased is exactly DENY or SAMEORIGIN. */
  predicate XFrameOptionsForbids(xFrameOptions: Option<string>) {
    Truthy(xFrameOptions) && JsUpper(xFrameOptions.value) in {"DENY", "SAMEORIGIN"}
  }

  /** The policy mentions `frame-ancestors` and nowhere mentions `frame-ancestors *`. */
  predicate PolicyForbids(csp: Option<string>) {
    Truthy(csp) && Contains(csp.value, "frame-ancestors") && !Contains(csp.value, "frame-ancestors *")
  }

  /** `site.xframe_restricted` after the two header checks, in the order the source makes
      them: the CSP is consulted only when `X-Frame-Options` did not already decide. */
  function IsFrameRestricted(xFrameOptions: Option<string>, csp: Option<string>): (r: bool)
    ensures r <==> XFrameOptionsForbids(xFrameOptions) || PolicyForbids(csp)
  {
    var byXfo := XFrameOptionsForbids(xFrameOptions);
    if !byXfo && Truthy(csp) then PolicyForbids(csp) else byXfo
  }

  /** `X-Frame-Options: DENY` or `SAMEORIGIN`, in any case, restricts whatever the
      policy says. */
  lemma XFrameOptionsWins(x: string, csp: Option<string>)
    requires JsUpper(x) == "DENY" || JsUpper(x) == "SAMEORIGIN"
    ensures IsFrameRestricted(Some(x), csp)
  {
  }

  /** Without a forbidding `X-Frame-Options`, the site is restricted exactly when the
      policy contains `frame-ancestors` but not `frame-ancestors *`. */
  lemma PolicyDecidesOtherwise(xFrameOptions: Option<string>, csp: string)
    requires !XFrameOptionsForbids(xFrameOptions)
    ensures IsFrameRestricted(xFrameOptions, Some(csp))
            <==> Contains(csp, "frame-ancestors") && !Contains(csp, "frame-ancestors *")
  {
  }

  /** A page with neither header can be framed. */
  lemma NoHeadersNoRestriction()
    ensures !IsFrameRestricted(None, None)
  {
  }

  /** Any policy containing `frame-ancestors *`, `frame-ancestors *.x.com` included,
      counts as permitting frames. */
  lemma WildcardPermits(prefix: string, rest: string)
    ensures !IsFrameRestricted(None, Some(prefix + "frame-ancestors *" + rest))
  {
    var csp := prefix + "frame-ancestors *" + rest;
    assert csp[|prefix|..|prefix| + 17] == "frame-ancestors *";
    assert OccursAt(csp, "frame-ancestors *", |prefix|);
  }

  /** `frame-ancestors 'self'` restricts, `frame-ancestors *.x.com` does not, and a
      lower-case `sameorigin` restricts. */
  lemma Examples()
    ensures IsFrameRestricted(None, Some("frame-ancestors 'self'"))
    ensures !IsFrameRestricted(None, Some("frame-ancestors *.x.com"))
    ensures IsFrameRestricted(Some("sameorigin"), Some("frame-ancestors *"))
    ensures !IsFrameRestricted(Some("ALLOW-FROM https://x.com"), None)
  {
    var selfPolicy := "frame-ancestors 'self'";
    assert OccursAt(selfPolicy, "frame-ancestors", 0);
    assert forall i :: 0 <= i <= |selfPolicy| ==> !OccursAt(selfPolicy, "frame-ancestors *", i) by {
      forall i | 0 <= i <= |selfPolicy|
        ensures !OccursAt(selfPolicy, "frame-ancestors *", i)
      {
        if 0 < i <= |selfPolicy| - 17 {
          assert selfPolicy[i] != 'f';
          assert selfPolicy[i..i + 17][0] != "frame-ancestors *"[0];
        } else if i == 0 {
          assert selfPolicy[16] != '*';
          assert selfPolicy[0..17][16] != "frame-ancestors *"[16];
        }
      }
    }
    WildcardPermits("", ".x.com");
    assert "" + "frame-ancestors *" + ".x.com" == "frame-ancestors *.x.com";
    assert JsUpper("sameorigin") == "SAMEORIGIN";
    var allow := JsUpper("ALLOW-FROM https://x.com");
    assert |allow| != 4 && |allow| != 10;
  }
}
