# Certificate generator — a Dafny model

This project models the core of a small certificate service (`run1.py`). The
service:

- reads a records file once and builds the set of eligible mobile numbers;
- on `verify`, checks a submitted name and mobile number against that set and
  renders a PDF certificate into an output directory;
- on `download`, serves the certificate from a link built from the trimmed
  name and the normalised number.

The model covers five parts of that core:

- **Input normalisers** (`text.dfy`, `mobile.dfy`, `filename.dfy`):
  - `safe_text` (Python's `str.strip()`);
  - `normalize_mobile` (keep the digits, drop a leading `91` country code when
    there are at least twelve digits, keep the last ten);
  - `safe_filename`: trim, fall back to `Unnamed`, replace each of
    `<>:"\|?*` and then `/` by `-`, strip. It is modelled as a method with the
    source's loop over the hostile characters.
- **Artifact naming** (`filename.dfy`): `<safe name>_<mobile>.pdf` under
  `output/`. It is built both by `make_certificate_pdf` and by `download`.
- **Page geometry** (`layout.dfy`):
  - cover, contain and stretch placement of the template image;
  - the autosize page;
  - the fit-mode dispatch;
  - the position of the name.

  All arithmetic is exact `real`.
- **Eligibility set** (`eligibility.dfy`): `load_mobile_set` is a method that
  folds the rows into a set. It has two error cases: a missing file and a
  header without a `mobile` column.
- **Certificate store and request handlers** (`routes.dfy`, `generator.dfy`):
  - the decision order of `verify` and `download` as pure decision functions;
  - a `CertificateService` class whose `artifacts` map stands for the output
    directory, holding each existing path with what its PDF shows, plus a
    `renders` counter;
  - `MakeCertificatePdf`, `Verify` and `Download` update that state the way
    the source does.

Three consequences of the code are proved and worth knowing:

- **Stripping `91` never changes the result of `normalize_mobile`.** The
  strip only happens with at least twelve digits, so it never changes which
  ten digits are kept. The result is always the last (up to) ten digits of
  the input (`Mobile.NormalizeMobileIsLastTenDigits`).
- **`download` never consults the eligibility set.** Any non-blank name with
  a non-empty number gets a certificate rendered on demand, if none exists.
- **`verify` accepts a blank name and prepares `Unnamed_<mobile>.pdf`.** The
  link it hands out carries the empty name, and `download` answers
  "Bad request" to it (`Routes.VerifiedLinkDownloads`).

The shipped configuration block (run1.py:26-35) is the value
`Generator.DEFAULT_CONFIG`. It is a parameter of the service, so every branch
of the layout and cache logic stays reachable. The following are inputs
rather than library calls:

- the template image's size (`None` when the file is missing);
- the width of the rendered name;
- the records file's header and cells.

## Model

| member | source | states |
|---|---|---|
| Text.LeadingSpaces | run1.py:51 | the index of the first non-space character (the length when there is none): everything before it is whitespace |
| Text.TrailingStart | run1.py:51 | one past the last non-space character (zero when there is none): everything from it on is whitespace |
| Text.Strip | run1.py:51 | `str.strip()`: the result has no whitespace at either end and is the contiguous piece of the input that starts right after its leading whitespace; everything before and after that piece is whitespace; it is empty exactly when the input is all whitespace |
| Text.StripTrimmed | run1.py:51 | a string with no surrounding whitespace is left unchanged by strip |
| Text.StripIdempotent | run1.py:51 | stripping twice is stripping once |
| Text.SafeText | run1.py:51 | `safe_text` gives the empty string for `None` and the stripped value otherwise, so its result is always trimmed |
| Text.SafeTextIdempotent | run1.py:51 | applying `safe_text` to its own result changes nothing |
| Text.Lower | run1.py:113 | `str.lower()` keeps the length and lower-cases each character |
| Text.LowerIdempotent | run1.py:124 | lower-casing twice is lower-casing once |
| Mobile.Digits | run1.py:61 | the kept characters are all digits and no more than the input |
| Mobile.DigitsOfDigits | run1.py:61 | a string of digits is its own digit string |
| Mobile.DigitsConcat | run1.py:61 | keeping the digits distributes over concatenation |
| Mobile.NormalizeMobile | run1.py:59-66 | the result consists of digits only and has at most ten characters |
| Mobile.NormalizeMobileIsLastTenDigits | run1.py:59-66 | for any input, including one whose digits start with `91` and number twelve or more, the result is the last ten digits (all of them when fewer); `None` and `""` give `""` |
| Mobile.NormalizeMobileIsDigitSuffix | run1.py:61-66 | the result is a suffix of the input's digits, and empty exactly when the input has no digit |
| Mobile.NormalizeMobileFixesShortDigits | run1.py:59-66 | a digit string of at most ten characters is returned unchanged |
| Mobile.NormalizeMobileIdempotent | run1.py:59-66 | normalising a normalised number changes nothing |
| Mobile.NormalizeMobileFormattedExample | run1.py:59-66 | `+91 98765 43210` and `+91-98765-43210` normalise to `9876543210` |
| Mobile.NormalizeMobileShortExamples | run1.py:59-66 | `12345` is kept; `None` and `""` give `""` |
| Filename.ReplaceChar | run1.py:56-57 | `s.replace(c, d)` keeps the length and replaces exactly the occurrences of `c` |
| Filename.ReplaceEachPointwise | run1.py:55-56 | replacing the characters of a list one after another replaces every character that occurs in the list and keeps the others |
| Filename.ReplacingHostileIsSanitize | run1.py:55-57 | the loop over `<>:"\|?*` followed by the replacement of `/` replaces exactly the hostile characters by `-` |
| Filename.SafeFilename | run1.py:53-57 | the loop computes the trimmed name (or `Unnamed`) with every hostile character replaced, then stripped |
| Filename.FinalStripIsNoOp | run1.py:57 | the final `.strip()` never removes anything |
| Filename.SafeFilenameShape | run1.py:53-57 | `Unnamed` when the trimmed name is empty or absent; otherwise the trimmed name, same length, differing only where a hostile character became `-`; never empty; no hostile character survives |
| Filename.SafeFilenameFixesClean | run1.py:53-57 | a non-empty trimmed name without hostile characters is its own safe name |
| Filename.SafeFilenameIdempotent | run1.py:53-57 | `safe_filename` is idempotent |
| Filename.SafeFilenameIgnoresSafeText | run1.py:51-54 | trimming the name before `safe_filename` changes nothing |
| Filename.ArtifactNameHasNoSlash | run1.py:102 | the certificate file name never contains `/`, so it stays inside the output directory |
| Filename.OutputPathInjective | run1.py:103 | different file names give different output paths |
| Filename.ArtifactNameOfNormalisedInputs | run1.py:101-102 | the file name built from an already trimmed name and normalised mobile is the one built from the raw inputs |
| Layout.CentredIsCentred | run1.py:71-73 | at any scale the drawn image keeps its aspect ratio and its middle is the page's middle |
| Layout.CoverFillsPage | run1.py:68-74 | cover draws at least the page on both axes and exactly the page on one, keeps the aspect ratio, is centred, and starts at non-positive offsets |
| Layout.ContainFitsPage | run1.py:76-82 | contain draws at most the page on both axes and exactly the page on one, keeps the aspect ratio, is centred, and starts at non-negative offsets |
| Layout.CoverContainExample | run1.py:68-82 | a 100×50 image on a 200×200 page: cover draws 400×200 at (−100, 0), contain 200×100 at (0, 50) |
| Layout.FitModeIgnoresCase | run1.py:124-130 | the fit mode is compared without regard to letter case |
| Layout.NamePlacement | run1.py:88-97 | a centred name has its midpoint at the page middle plus the x offset, otherwise it starts at 100 plus the offset; the height is the absolute value when set, else 215 above the page centre |
| Layout.AutosizePage | run1.py:113-119 | autosize makes the page the image's pixel size and draws the image from the origin over the whole page |
| Layout.FixedPageBackground | run1.py:120-130 | a non-autosize page is 792×612; stretch fills it exactly; contain fits inside touching two sides with non-negative offsets; every other mode covers it touching two sides with non-positive offsets; contain and cover keep the aspect ratio and are centred on the page |
| Layout.DefaultLayout | run1.py:26-35 | with the shipped settings the page is the template's size and the name is centred, 215 points above the middle |
| Eligibility.LoadMobileSet | run1.py:137-149 | a missing file and a header without `mobile` are errors; otherwise the result is the set of the rows' non-empty normalised mobiles |
| Eligibility.NormalisedRows | run1.py:145-146 | one normalised mobile per row, in row order |
| Eligibility.MobileSetMembers | run1.py:137-149 | every member is a non-empty digit string of at most ten characters that normalisation leaves unchanged; a string is a member exactly when it is non-empty and some row normalises to it |
| Eligibility.MobileSetOfMembers | run1.py:145-148 | membership in the row-by-row set is "non-empty and some row normalises to it" |
| Routes.VerifyOutcomes | run1.py:219-233 | an empty normalised mobile is invalid before the set is consulted; otherwise the request is rejected exactly when the mobile is not in the set and granted exactly when it is; the name plays no part in the decision; a granted request passes on the trimmed name and a mobile of one to ten digits |
| Routes.VerifyAgainstRecords | run1.py:146-148 | against the set built from the records, a request is granted exactly when some row normalises to the same non-empty number |
| Routes.DownloadPathIsGeneratorPath | run1.py:253-261 | `download` refuses exactly a blank name or empty mobile; otherwise its file name and path are those `make_certificate_pdf` builds for the same inputs, and it renders only when that path does not exist |
| Routes.VerifiedLinkDownloads | run1.py:233-234 | the link `verify` hands out leads `download` to the file `verify` made, with the same name; a blank name gets "Bad request" |
| Generator.CertificateService.ArtifactPath | run1.py:101-103 | the output path is `output/<safe name>_<normalised mobile>.pdf` |
| Generator.CertificateService.MakeCertificatePdf | run1.py:99-135 | with regeneration off and the path present, the path is returned and nothing changes, before the template is looked at; a missing template is an error that changes nothing; otherwise exactly that path is (re)rendered with the page layout and one render is counted |
| Generator.CertificateService.RequestTwice | run1.py:99-135 | with regeneration off, two identical calls give the same answer and render at most once; a template error changes nothing; an existing artifact is left as it is; otherwise exactly the one artifact at the returned path (the certificate's output path) is added with its drawing and every other one is kept |
| Generator.CertificateService.Verify | run1.py:219-249 | invalid and unknown mobiles change nothing; a granted request behaves exactly like `make_certificate_pdf` on the trimmed name and normalised mobile: an existing artifact (regeneration off) is kept and the link parameters returned; a missing template gives the failure answer and changes nothing; otherwise that one artifact is rendered, one render counted, and the link parameters returned |
| Generator.CertificateService.Download | run1.py:252-262 | a bad request changes nothing; an existing file is sent as it is; a missing one is rendered first (or the template error escapes) and then sent under the same file name |
| Generator.CertificateService.VerifyThenDownload | run1.py:219-262 | the state after `verify` is given exactly, case by case as for `Verify`; when `verify` grants the request (and the name is not blank), downloading its link sends that very file under its file name and changes neither the output directory nor the render count; otherwise there is no link and no download |

## Left out

- Web transport is not modelled: Flask routing, the HTML pages, `flash`, `redirect`, `render_template_string`, the `home` and `healthz` routes, `SECRET_KEY` and the URL prefix. Only the decision order of `verify` and `download` is modelled, and the download link's URL encoding is taken to carry the name and mobile unchanged.
- Rendering through ReportLab is not modelled: the canvas, `drawImage`, `drawString`, `setFont`, `showPage` and `save`. A render is modelled as storing, under the artifact's path, the name text and the computed page layout.
- `stringWidth` and `ImageReader.getSize` are inputs: a text-width function and the template's size.
- Font registration and the rebinding of the global `FONT_NAME` (run1.py:44-49, run1.py:111) are left out, together with the font size. The font only affects the text width, which is an input.
- The thread lock is left out (run1.py:41, run1.py:151-152, run1.py:232, run1.py:260): the model is sequential.
- Filesystem mechanics are left out. Creating the output directory has no observable effect in the model. The template's existence is fixed for the life of the service.
- CSV mechanics are left out: file reading, encoding, the byte-order mark and the `csv.DictReader` parser. The records file is its header plus, per row, the `mobile` cell or `None`.
- `str(v)` on non-string values is left out: inputs are strings or absent.
- Floating point is not modelled: the geometry uses exact `real` arithmetic.
- Python's Unicode tables are approximated:
  - `str.isdigit` accepts only `'0'..'9'`;
  - `str.strip` removes a fixed set of ASCII whitespace and separator characters;
  - `str.lower` maps only `'A'..'Z'`.
- Only the missing template is modelled among render failures. Other exceptions, such as an unreadable image or a write error, are not modelled.
- `NAME_Y_OFFSET` (run1.py:33) is never read by the source, so the model has no counterpart.
