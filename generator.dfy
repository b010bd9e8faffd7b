/**
 * The certificate generator's state: the output directory, seen as the
 * rendered artifacts it holds, and the calls that change it:
 * `make_certificate_pdf` (run1.py:99-135) and the two request handlers that
 * call it, `verify` (run1.py:219-249) and `download` (run1.py:252-262).
 *
 * Rendering is modelled as storing, under the artifact's path, what the PDF
 * shows: the trimmed name and the page layout.
 */
module Generator {
  import opened Wrappers
  import opened Text
  import opened Mobile
  import opened Filename
  import opened Layout
  import opened Routes

  /** The configuration block (run1.py:26-35) that the generator reads. */
  datatype Config = Config(layout: LayoutConfig, allowRegenSamePdf: bool)

  /** The configuration the program ships with. */
  const DEFAULT_CONFIG := Config(DEFAULT_LAYOUT, false)

  /** What a rendered certificate shows: the name text and the page it is laid out on. */
  datatype Drawing = Drawing(text: string, page: Page)

  /** `make_certificate_pdf` raises `FileNotFoundError` when the template image is missing. */
  datatype GenerationError = TemplateNotFound

  /** What `verify` answers. */
  datatype VerifyResponse =
    | InvalidMobileMessage
    | NoRecordMessage
    | Prepared(name: string, mobile: string)      // the parameters of the download link
    | GenerationFailed(error: GenerationError)    // "Something went wrong."

  /** What `download` answers. */
  datatype DownloadResponse =
    | BadRequest400
    | SendFile(path: string, downloadName: string)
    | ServerError(error: GenerationError)         // the exception escapes the handler

  class CertificateService {
    const config: Config
    /** `MOBILE_SET`, built once at start-up and never changed. */
    const eligible: set<string>
    /** `stringWidth` of a text in the name font at the name size. */
    const textWidth: string -> real
    /** The template image's size, or `None` when `template.png` does not exist. */
    const template: Option<ImageSize>
    /** The output directory: each existing path with what its PDF shows. */
    var artifacts: map<string, Drawing>
    /** How many PDFs have been rendered. */
    var renders: nat

    constructor(config: Config, eligible: set<string>, textWidth: string -> real,
                template: Option<ImageSize>, artifacts: map<string, Drawing>)
      ensures this.config == config && this.eligible == eligible && this.textWidth == textWidth
      ensures this.template == template && this.artifacts == artifacts && renders == 0
    {
      this.config := config;
      this.eligible := eligible;
      this.textWidth := textWidth;
      this.template := template;
      this.artifacts := artifacts;
      renders := 0;
    }

    /** The paths that exist in the output directory. */
    function Store(): set<string>
      reads this
    {
      artifacts.Keys
    }

    /** What rendering a certificate for `name` on the template `img` draws. */
    function DrawingFor(name: string, img: ImageSize): Drawing {
      var text := SafeText(Some(name));
      Drawing(text, PageLayout(config.layout, img, textWidth(text)))
    }

    /** Whether `make_certificate_pdf` would return the existing artifact for these inputs. */
    predicate Cached(name: string, mobile: string)
      reads this
    {
      !config.allowRegenSamePdf && OutputPath(ArtifactName(name, mobile)) in artifacts
    }

    /** The output path `make_certificate_pdf` computes for its inputs (run1.py:101-103). */
    static method ArtifactPath(name: string, mobile: string) returns (path: string)
      ensures path == OutputPath(ArtifactName(name, mobile))
    {
      var mobileNorm := NormalizeMobile(Some(mobile));
      var safeName := SafeFilename(Some(name));
      path := OutputPath(safeName + "_" + mobileNorm + ".pdf");
    }

    /**
     * `make_certificate_pdf`: when regeneration is off and the artifact
     * already exists, its path is returned without looking at the template or
     * rendering; a missing template is an error that changes nothing;
     * otherwise exactly that one artifact is (re)rendered.
     */
    method MakeCertificatePdf(name: string, mobile: string) returns (r: Result<string, GenerationError>)
      modifies this
      ensures var path := OutputPath(ArtifactName(name, mobile));
        if old(Cached(name, mobile)) then
          r == Ok(path) && artifacts == old(artifacts) && renders == old(renders)
        else if template.None? then
          r == Err(TemplateNotFound) && artifacts == old(artifacts) && renders == old(renders)
        else
          && r == Ok(path) && renders == old(renders) + 1
          && artifacts == old(artifacts)[path := DrawingFor(name, template.value)]
    {
      var outPath := ArtifactPath(name, mobile);
      if !config.allowRegenSamePdf && outPath in artifacts {
        return Ok(outPath);
      }
      if template.None? {
        return Err(TemplateNotFound);
      }
      artifacts := artifacts[outPath := DrawingFor(name, template.value)];
      renders := renders + 1;
      return Ok(outPath);
    }

    /**
     * With regeneration off, asking twice for the same certificate gives the
     * same answer and renders at most once: a template error changes nothing,
     * an existing artifact is left as it is, and otherwise that one artifact is
     * added and every other one kept.
     */
    method RequestTwice(name: string, mobile: string)
        returns (first: Result<string, GenerationError>, second: Result<string, GenerationError>)
      requires !config.allowRegenSamePdf
      modifies this
      ensures first == second
      ensures renders <= old(renders) + 1
      ensures first.Err? ==> artifacts == old(artifacts) && renders == old(renders)
      ensures first.Ok? ==>
        && first.value == OutputPath(ArtifactName(name, mobile))
        && first.value in artifacts
        && if first.value in old(artifacts) then
             artifacts == old(artifacts) && renders == old(renders)
           else
             && template.Some? && renders == old(renders) + 1
             && artifacts == old(artifacts)[first.value := DrawingFor(name, template.value)]
    {
      first := MakeCertificatePdf(name, mobile);
      second := MakeCertificatePdf(name, mobile);
    }

    /**
     * `verify`: rejects an empty or unknown mobile without touching the
     * output directory; otherwise makes the certificate from the trimmed name
     * and normalised mobile, exactly as `make_certificate_pdf` does, and
     * answers with the download link's parameters, or with a failure (and no
     * change) when the template is missing.
     */
    method Verify(rawName: Option<string>, rawMobile: Option<string>) returns (r: VerifyResponse)
      modifies this
      ensures match DecideVerify(rawName, rawMobile, eligible)
        case InvalidMobile => r == InvalidMobileMessage && artifacts == old(artifacts) && renders == old(renders)
        case NotEligible => r == NoRecordMessage && artifacts == old(artifacts) && renders == old(renders)
        case Generate(name, mobile) =>
          var path := OutputPath(ArtifactName(name, mobile));
          if !config.allowRegenSamePdf && path in old(artifacts) then
            r == Prepared(name, mobile) && artifacts == old(artifacts) && renders == old(renders)
          else if template.None? then
            r == GenerationFailed(TemplateNotFound) && artifacts == old(artifacts) && renders == old(renders)
          else
            && r == Prepared(name, mobile) && renders == old(renders) + 1
            && artifacts == old(artifacts)[path := DrawingFor(name, template.value)]
    {
      var d := DecideVerify(rawName, rawMobile, eligible);
      match d {
        case InvalidMobile =>
          r := InvalidMobileMessage;
        case NotEligible =>
          r := NoRecordMessage;
        case Generate(name, mobile) =>
          var made := MakeCertificatePdf(name, mobile);
          if made.Ok? {
            r := Prepared(name, mobile);
          } else {
            r := GenerationFailed(made.error);
          }
      }
    }

    /**
     * `download`: a blank name or mobile is a bad request; an existing
     * artifact is sent as it is; a missing one is rendered first. The file sent
     * is always the one `make_certificate_pdf` produces for the same inputs.
     */
    method Download(rawName: Option<string>, rawMobile: Option<string>) returns (r: DownloadResponse)
      modifies this
      ensures match DecideDownload(rawName, rawMobile, old(Store()))
        case BadRequest => r == BadRequest400 && artifacts == old(artifacts) && renders == old(renders)
        case Deliver(filename, path, onDisk) =>
          if onDisk then
            r == SendFile(path, filename) && artifacts == old(artifacts) && renders == old(renders)
          else if template.None? then
            r == ServerError(TemplateNotFound) && artifacts == old(artifacts) && renders == old(renders)
          else
            && r == SendFile(path, filename) && renders == old(renders) + 1
            && artifacts == old(artifacts)[path := DrawingFor(SafeText(rawName), template.value)]
    {
      var d := DecideDownload(rawName, rawMobile, Store());
      if d.BadRequest? {
        return BadRequest400;
      }
      var path := d.path;
      if !d.onDisk {
        DownloadPathIsGeneratorPath(rawName, rawMobile, Store());
        var made := MakeCertificatePdf(SafeText(rawName), NormalizeMobile(rawMobile));
        if made.Err? {
          return ServerError(made.error);
        }
        path := made.value;
      }
      return SendFile(path, d.filename);
    }

    /**
     * A `verify` followed, when it grants the request, by the download of the
     * link it hands out (with a non-blank name). `midArtifacts` and
     * `midRenders` are the state `verify` leaves, given exactly as for
     * `Verify`; the download then sends the very artifact `verify` made and
     * changes nothing. Without a granted request there is no link, so no
     * download (`dl == None`).
     */
    method VerifyThenDownload(rawName: Option<string>, rawMobile: Option<string>)
        returns (v: VerifyResponse, dl: Option<DownloadResponse>,
                 ghost midArtifacts: map<string, Drawing>, ghost midRenders: nat)
      requires SafeText(rawName) != ""
      modifies this
      ensures match DecideVerify(rawName, rawMobile, eligible)
        case InvalidMobile => v == InvalidMobileMessage && midArtifacts == old(artifacts) && midRenders == old(renders)
        case NotEligible => v == NoRecordMessage && midArtifacts == old(artifacts) && midRenders == old(renders)
        case Generate(name, mobile) =>
          var path := OutputPath(ArtifactName(name, mobile));
          if !config.allowRegenSamePdf && path in old(artifacts) then
            v == Prepared(name, mobile) && midArtifacts == old(artifacts) && midRenders == old(renders)
          else if template.None? then
            v == GenerationFailed(TemplateNotFound) && midArtifacts == old(artifacts) && midRenders == old(renders)
          else
            && v == Prepared(name, mobile) && midRenders == old(renders) + 1
            && midArtifacts == old(artifacts)[path := DrawingFor(name, template.value)]
      ensures artifacts == midArtifacts && renders == midRenders
      ensures v.Prepared? ==>
        dl == Some(SendFile(OutputPath(ArtifactName(v.name, v.mobile)), ArtifactName(v.name, v.mobile)))
      ensures !v.Prepared? ==> dl == None
    {
      v := Verify(rawName, rawMobile);
      midArtifacts, midRenders := artifacts, renders;
      if v.Prepared? {
        ghost var g := DecideVerify(rawName, rawMobile, eligible);
        assert g == Generate(v.name, v.mobile);
        ghost var path := OutputPath(ArtifactName(v.name, v.mobile));
        assert path in artifacts;
        VerifiedLinkDownloads(rawName, rawMobile, eligible, Store());
        assert DecideDownload(Some(v.name), Some(v.mobile), Store()) == Deliver(ArtifactName(v.name, v.mobile), path, true);
        var sent := Download(Some(v.name), Some(v.mobile));
        dl := Some(sent);
      } else {
        dl := None;
      }
    }
  }
}
