/** The "Add Website" dialog (src/components/add-site-dialog.tsx): on a
    submit that passed the form's URL check, the entered text gets an
    `https://` scheme unless it already starts with `http://` or `https://`
    in any letter case, is handed to the page once, and the dialog resets
    and closes. */
module AddSiteDialog {

  const HttpPrefix := "http://"
  const HttpsPrefix := "https://"

  /** Case folding of the regular expression's `i` flag on ASCII letters. */
  function LowerAscii(c: char): (d: char)
    ensures !('A' <= c <= 'Z') ==> d == c
    ensures 'A' <= c <= 'Z' ==> 'a' <= d <= 'z' && d as int - c as int == 'a' as int - 'A' as int
  {
    if 'A' <= c <= 'Z' then (c as int + 32) as char else c
  }

  /** `s` begins with the lower-case `prefix`, ignoring the case of ASCII letters. */
  predicate StartsWithIgnoringCase(s: string, prefix: string) {
    |prefix| <= |s| && forall i :: 0 <= i < |prefix| ==> LowerAscii(s[i]) == prefix[i]
  }

  /** The characters "://" stand at position `k`. */
  predicate SchemeEndAt(s: string, k: nat) {
    k + 3 <= |s| && s[k] == ':' && s[k + 1] == '/' && s[k + 2] == '/'
  }

  /** `/^https?:\/\//i.test(s)`: read as the regular expression reads,
      the letters h, t, t, p in any case, an optional s in any case, then
      "://". */
  predicate HasHttpScheme(s: string): (b: bool)
    ensures b <==> 7 <= |s| && LowerAscii(s[0]) == 'h' && LowerAscii(s[1]) == 't'
                   && LowerAscii(s[2]) == 't' && LowerAscii(s[3]) == 'p'
                   && (SchemeEndAt(s, 4) || (LowerAscii(s[4]) == 's' && SchemeEndAt(s, 5)))
  {
    StartsWithIgnoringCase(s, HttpPrefix) || StartsWithIgnoringCase(s, HttpsPrefix)
  }

  /** The URL the dialog hands on: the entered text, with `https://` put in
      front of it when it has no http or https scheme. */
  function NormaliseUrl(s: string): (r: string)
    ensures HasHttpScheme(r)
    ensures r == s <==> HasHttpScheme(s)
    ensures !HasHttpScheme(s) ==> r == HttpsPrefix + s
    ensures r != ""
  {
    if HasHttpScheme(s) then s
    else
      var r := HttpsPrefix + s;
      assert r[..|HttpsPrefix|] == HttpsPrefix;
      r
  }

  /** Normalising twice is normalising once. */
  lemma NormaliseIdempotent(s: string)
    ensures NormaliseUrl(NormaliseUrl(s)) == NormaliseUrl(s)
  {
  }

  /** Whether a text has the scheme depends only on its letters up to case. */
  lemma SchemeIgnoresCase(s: string, t: string)
    requires |s| == |t|
    requires forall i :: 0 <= i < |s| ==> LowerAscii(s[i]) == LowerAscii(t[i])
    ensures HasHttpScheme(s) <==> HasHttpScheme(t)
  {
  }

  /** Another scheme is not replaced but prefixed. */
  lemma OtherSchemeIsPrefixed()
    ensures NormaliseUrl("ftp://x") == "https://ftp://x"
  {
    assert LowerAscii("ftp://x"[0]) != HttpPrefix[0];
  }

  /** A mixed-case scheme is kept as typed. */
  lemma MixedCaseSchemeIsKept()
    ensures NormaliseUrl("HtTpS://Example.com") == "HtTpS://Example.com"
  {
    assert StartsWithIgnoringCase("HtTpS://Example.com", HttpsPrefix);
  }

  /** The dialog's own state: whether it is open and the text in its field. */
  datatype Dialog = Dialog(isOpen: bool, draft: string)

  /** The outcome of a submit: the dialog afterwards and the URLs passed to
      `onAddSite`, in call order. */
  datatype Submitted = Submitted(next: Dialog, added: seq<string>)

  /** A submit. `schemaAccepts` is the form schema's verdict on the draft
      (zod's URL grammar); only an accepted draft reaches `onSubmit`. */
  function Submit(d: Dialog, schemaAccepts: bool): (r: Submitted)
    ensures |r.added| == if schemaAccepts then 1 else 0
    ensures schemaAccepts ==> r.added[0] == NormaliseUrl(d.draft) && HasHttpScheme(r.added[0])
    ensures schemaAccepts ==> !r.next.isOpen && r.next.draft == ""
    ensures !schemaAccepts ==> r.next == d
  {
    if schemaAccepts then Submitted(Dialog(false, ""), [NormaliseUrl(d.draft)])
    else Submitted(d, [])
  }
}
