/**
 * The decision order of the two request handlers, without the web transport:
 * `verify` (run1.py:219-233) and `download` (run1.py:253-261).
 */
module Routes {
  import opened Wrappers
  import opened Text
  import opened Mobile
  import opened Filename
  import opened Eligibility

  /** What `verify` decides before it renders anything. */
  datatype VerifyDecision =
    | InvalidMobile                             // "Please enter a valid mobile number."
    | NotEligible                               // "No record found for this mobile number."
    | Generate(name: string, mobile: string)    // make the certificate for these inputs

  /**
   * `verify`: trims the name and normalises the mobile; an empty mobile is
   * rejected before the eligibility set is consulted; a mobile outside the set
   * is rejected; otherwise the certificate is made.
   */
  function DecideVerify(rawName: Option<string>, rawMobile: Option<string>, eligible: set<string>): VerifyDecision {
    var name, mobile := SafeText(rawName), NormalizeMobile(rawMobile);
    if mobile == "" then InvalidMobile
    else if mobile !in eligible then NotEligible
    else Generate(name, mobile)
  }

  /**
   * An empty normalised mobile is invalid whatever the set holds; otherwise the
   * request is granted exactly when the normalised mobile is in the set. The
   * name plays no part in the decision; a granted request passes on the trimmed
   * name and a normalised mobile of one to ten digits.
   */
  lemma VerifyOutcomes(rawName: Option<string>, rawMobile: Option<string>, eligible: set<string>)
    ensures var d, m := DecideVerify(rawName, rawMobile, eligible), NormalizeMobile(rawMobile);
      && (d.InvalidMobile? <==> m == "")
      && (d.NotEligible? <==> m != "" && m !in eligible)
      && (d.Generate? <==> m != "" && m in eligible)
      && (d.Generate? ==> d.name == SafeText(rawName) && d.mobile == m &&
                          AllDigits(d.mobile) && 0 < |d.mobile| <= MAX_MOBILE_DIGITS)
      && forall otherName: Option<string> ::
           DecideVerify(otherName, rawMobile, eligible).Generate? == d.Generate?
  {
  }

  /**
   * Against the set built from the records file: a request is granted exactly
   * when some row's mobile normalises to the same non-empty number.
   */
  lemma VerifyAgainstRecords(rawName: Option<string>, rawMobile: Option<string>, mobiles: seq<Option<string>>)
    ensures var m := NormalizeMobile(rawMobile);
      DecideVerify(rawName, rawMobile, MobileSetOf(mobiles)).Generate? <==> m != "" && OccursIn(mobiles, m)
  {
    MobileSetOfMembers(mobiles, NormalizeMobile(rawMobile));
  }

  /** What `download` decides: a bad request, or a file name and path to send. */
  datatype DownloadDecision =
    | BadRequest
    | Deliver(filename: string, path: string, onDisk: bool)  // `onDisk`: no render is needed

  /**
   * `download`: an empty trimmed name or empty normalised mobile is a bad
   * request; otherwise the file `<safe name>_<mobile>.pdf` is sent, rendered
   * first when it does not yet exist. The eligibility set is not consulted.
   */
  function DecideDownload(rawName: Option<string>, rawMobile: Option<string>, store: set<string>): DownloadDecision {
    var name, mobile := SafeText(rawName), NormalizeMobile(rawMobile);
    if name == "" || mobile == "" then BadRequest
    else
      var filename := SafeFilenameOf(Some(name)) + "_" + mobile + ".pdf";
      var path := OutputPath(filename);
      Deliver(filename, path, path in store)
  }

  /**
   * The file `download` looks for is exactly the one `make_certificate_pdf`
   * writes for the same trimmed name and normalised mobile, so the render it
   * triggers produces the file it then sends.
   */
  lemma DownloadPathIsGeneratorPath(rawName: Option<string>, rawMobile: Option<string>, store: set<string>)
    ensures var d := DecideDownload(rawName, rawMobile, store);
      var name, mobile := SafeText(rawName), NormalizeMobile(rawMobile);
      && (d.BadRequest? <==> name == "" || mobile == "")
      && (d.Deliver? ==>
            && d.filename == ArtifactName(name, mobile)
            && d.path == OutputPath(ArtifactName(name, mobile))
            && (d.onDisk <==> d.path in store))
  {
    NormalizeMobileIdempotent(rawMobile);
  }

  /**
   * The link `verify` hands out (its trimmed name and normalised mobile) leads
   * `download` to the very file `verify` had made, unless the name was blank:
   * `verify` accepts a blank name, but `download` then answers "Bad request".
   */
  lemma VerifiedLinkDownloads(rawName: Option<string>, rawMobile: Option<string>,
                              eligible: set<string>, store: set<string>)
    requires DecideVerify(rawName, rawMobile, eligible).Generate?
    ensures var g := DecideVerify(rawName, rawMobile, eligible);
      var d := DecideDownload(Some(g.name), Some(g.mobile), store);
      && (g.name == "" ==> d.BadRequest?)
      && (g.name != "" ==>
            && d.Deliver?
            && d.filename == ArtifactName(g.name, g.mobile)
            && d.path == OutputPath(d.filename)
            && (d.onDisk <==> d.path in store))
  {
    var g := DecideVerify(rawName, rawMobile, eligible);
    SafeTextIdempotent(rawName);
    NormalizeMobileIdempotent(rawMobile);
    DownloadPathIsGeneratorPath(Some(g.name), Some(g.mobile), store);
  }
}
