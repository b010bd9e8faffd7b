/**
 * Artifact naming: `safe_filename` (run1.py:53-57) and the certificate file
 * name `<safe name>_<normalised mobile>.pdf` under the output directory
 * (run1.py:101-103, run1.py:257-258).
 */
module Filename {
  import opened Wrappers
  import opened Text
  import opened Mobile

  /** The characters `safe_filename` replaces in its loop, in loop order. */
  const LOOP_HOSTILE: string := "<>:\"\\|?*"
  /** What every hostile character becomes. */
  const REPLACEMENT: char := '-'
  /** The name used when the trimmed name is empty. */
  const UNNAMED: string := "Unnamed"
  /** The output directory `./output`, as `Path` prints it. */
  const OUTPUT_DIR: string := "output"

  /** A character that `safe_filename` replaces: one of `<>:"\|?*`, or `/`. */
  predicate IsHostile(c: char) {
    c in LOOP_HOSTILE || c == '/'
  }

  /** Python's `s.replace(c, d)` for a single character `c`. */
  function ReplaceChar(s: string, c: char, d: char): (r: string)
    ensures |r| == |s|
    ensures forall k :: 0 <= k < |s| ==> r[k] == if s[k] == c then d else s[k]
  {
    if s == [] then [] else [if s[0] == c then d else s[0]] + ReplaceChar(s[1..], c, d)
  }

  /** Reference definition: every hostile character of `s` becomes `-`, the rest stays. */
  function Sanitize(s: string): string {
    seq(|s|, k requires 0 <= k < |s| => if IsHostile(s[k]) then REPLACEMENT else s[k])
  }

  /** `safe_text(name) or "Unnamed"`: the string the replacement loop starts from. */
  function FilenameBase(name: Option<string>): (r: string)
    ensures r != [] && Trimmed(r)
  {
    var t := SafeText(name);
    if t == "" then UNNAMED else t
  }

  /** What `safe_filename` returns, stated without its loop. */
  function SafeFilenameOf(name: Option<string>): string {
    Strip(Sanitize(FilenameBase(name)))
  }

  /** Replaces each character of `cs` in turn by `d`, as the loop of `safe_filename` does. */
  function ReplaceEach(s: string, cs: string, d: char): string
    decreases |cs|
  {
    if cs == [] then s else ReplaceEach(ReplaceChar(s, cs[0], d), cs[1..], d)
  }

  /** Replacing the characters of `cs` one after another replaces every occurrence of any of them. */
  lemma {:induction false} ReplaceEachPointwise(s: string, cs: string, d: char)
    decreases |cs|
    ensures var r := ReplaceEach(s, cs, d);
      |r| == |s| && forall k :: 0 <= k < |s| ==> r[k] == if s[k] in cs then d else s[k]
  {
    if cs != [] {
      var t := ReplaceChar(s, cs[0], d);
      ReplaceEachPointwise(t, cs[1..], d);
      assert forall c :: c in cs <==> c == cs[0] || c in cs[1..];
    }
  }

  /** The loop over `<>:"\|?*` followed by the replacement of `/` is `Sanitize`. */
  lemma ReplacingHostileIsSanitize(s: string)
    ensures ReplaceChar(ReplaceEach(s, LOOP_HOSTILE, REPLACEMENT), '/', REPLACEMENT) == Sanitize(s)
  {
    ReplaceEachPointwise(s, LOOP_HOSTILE, REPLACEMENT);
  }

  /**
   * `safe_filename`: starting from the trimmed name (or "Unnamed"), replaces
   * each of `<>:"\|?*` in turn, then `/`, by `-` and strips the result.
   */
  method SafeFilename(name: Option<string>) returns (r: string)
    ensures r == SafeFilenameOf(name)
  {
    var s := SafeText(name);
    if s == "" {
      s := UNNAMED;
    }
    ghost var base := s;
    var i := 0;
    while i < |LOOP_HOSTILE|
      invariant 0 <= i <= |LOOP_HOSTILE|
      invariant ReplaceEach(s, LOOP_HOSTILE[i..], REPLACEMENT) == ReplaceEach(base, LOOP_HOSTILE, REPLACEMENT)
    {
      assert LOOP_HOSTILE[i..][1..] == LOOP_HOSTILE[i + 1..];
      s := ReplaceChar(s, LOOP_HOSTILE[i], REPLACEMENT);
      i := i + 1;
    }
    ReplacingHostileIsSanitize(base);
    s := ReplaceChar(s, '/', REPLACEMENT);
    r := Strip(s);
  }

  /** Replacing hostile characters keeps the ends of a trimmed, non-empty string non-blank. */
  lemma SanitizeKeepsTrimmed(s: string)
    requires Trimmed(s)
    ensures Trimmed(Sanitize(s))
  {
  }

  /**
   * The final `.strip()` of `safe_filename` never removes anything: the name
   * was trimmed before, and `-` is not whitespace.
   */
  lemma FinalStripIsNoOp(name: Option<string>)
    ensures SafeFilenameOf(name) == Sanitize(FilenameBase(name))
  {
    SanitizeKeepsTrimmed(FilenameBase(name));
    StripTrimmed(Sanitize(FilenameBase(name)));
  }

  /**
   * The shape of a safe file name: "Unnamed" for an empty or absent name;
   * otherwise the trimmed name, character for character, with each hostile
   * character replaced by `-`. No hostile character survives.
   */
  lemma SafeFilenameShape(name: Option<string>)
    ensures var t, r := SafeText(name), SafeFilenameOf(name);
      && (t == "" ==> r == UNNAMED)
      && (t != "" ==>
            && |r| == |t|
            && forall k :: 0 <= k < |t| ==> r[k] == if IsHostile(t[k]) then REPLACEMENT else t[k])
      && r != ""
      && NoHostile(r)
  {
    var t, b := SafeText(name), FilenameBase(name);
    assert SafeFilenameOf(name) == Sanitize(b) by { FinalStripIsNoOp(name); }
    if t == "" {
      assert b == UNNAMED;
      SanitizeLeavesUnnamed();
    } else {
      assert b == t;
      SanitizeRemovesHostile(t);
    }
  }

  /** No character of `s` is hostile. */
  predicate NoHostile(s: string) {
    forall k :: 0 <= k < |s| ==> !IsHostile(s[k])
  }

  /** After sanitising, no hostile character is left. */
  lemma SanitizeRemovesHostile(s: string)
    ensures NoHostile(Sanitize(s))
  {
    ReplacementIsHarmless();
  }

  /** The replacement character is neither hostile nor blank. */
  lemma ReplacementIsHarmless()
    ensures !IsHostile(REPLACEMENT) && !IsSpace(REPLACEMENT)
  {
  }

  /** "Unnamed" has no hostile character. */
  lemma SanitizeLeavesUnnamed()
    ensures NoHostile(UNNAMED) && Sanitize(UNNAMED) == UNNAMED
  {
    assert forall k :: 0 <= k < |UNNAMED| ==> !IsHostile(UNNAMED[k]);
  }

  /** A name with no hostile characters and no surrounding blanks is its own safe name. */
  lemma SafeFilenameFixesClean(s: string)
    requires s != "" && Trimmed(s)
    requires NoHostile(s)
    ensures SafeFilenameOf(Some(s)) == s
  {
    StripTrimmed(s);
    FinalStripIsNoOp(Some(s));
  }

  /** `safe_filename` is idempotent. */
  lemma SafeFilenameIdempotent(name: Option<string>)
    ensures SafeFilenameOf(Some(SafeFilenameOf(name))) == SafeFilenameOf(name)
  {
    var r := SafeFilenameOf(name);
    SafeFilenameShape(name);
    FinalStripIsNoOp(name);
    SanitizeKeepsTrimmed(FilenameBase(name));
    SafeFilenameFixesClean(r);
  }

  /** Trimming the name first does not change its safe file name. */
  lemma SafeFilenameIgnoresSafeText(name: Option<string>)
    ensures SafeFilenameOf(Some(SafeText(name))) == SafeFilenameOf(name)
  {
    SafeTextIdempotent(name);
  }

  /** The file name `make_certificate_pdf` builds: `<safe name>_<normalised mobile>.pdf`. */
  function ArtifactName(name: string, mobile: string): string {
    SafeFilenameOf(Some(name)) + "_" + NormalizeMobile(Some(mobile)) + ".pdf"
  }

  /** An artifact name is a single path component: it never contains `/`. */
  lemma ArtifactNameHasNoSlash(name: string, mobile: string)
    ensures NoSlash(ArtifactName(name, mobile))
  {
    var safe, digits := SafeFilenameOf(Some(name)), NormalizeMobile(Some(mobile));
    assert NoSlash(safe) by { SafeFilenameShape(Some(name)); }
    assert NoSlash(digits);
    SeparatorsHaveNoSlash();
    NoSlashConcat(safe, "_");
    NoSlashConcat(safe + "_", digits);
    NoSlashConcat(safe + "_" + digits, ".pdf");
  }

  /** No character of `s` is `/`. */
  predicate NoSlash(s: string) {
    forall k :: 0 <= k < |s| ==> s[k] != '/'
  }

  /**
   * The literal parts of an artifact name contain no `/`. Kept apart from
   * `ArtifactNameHasNoSlash`: checking a literal character by character is
   * cheap on its own and costly amid that lemma's other facts.
   */
  lemma SeparatorsHaveNoSlash()
    ensures NoSlash("_") && NoSlash(".pdf")
  {
  }

  /** Concatenation keeps the absence of `/`. */
  lemma NoSlashConcat(a: string, b: string)
    requires NoSlash(a) && NoSlash(b)
    ensures NoSlash(a + b)
  {
    forall k | 0 <= k < |a + b| ensures (a + b)[k] != '/' {
      if k >= |a| { assert (a + b)[k] == b[k - |a|]; }
    }
  }

  /** `str(Path(OUTPUT_DIR) / base)`. */
  function OutputPath(base: string): string {
    OUTPUT_DIR + "/" + base
  }

  /** Different file names give different output paths. */
  lemma OutputPathInjective(a: string, b: string)
    requires OutputPath(a) == OutputPath(b)
    ensures a == b
  {
    assert a == OutputPath(a)[|OUTPUT_DIR| + 1..];
    assert b == OutputPath(b)[|OUTPUT_DIR| + 1..];
  }

  /**
   * The name `make_certificate_pdf` builds is unchanged when it is handed a
   * trimmed name and an already normalised mobile, as the request routes do.
   */
  lemma ArtifactNameOfNormalisedInputs(name: Option<string>, mobile: Option<string>)
    ensures ArtifactName(SafeText(name), NormalizeMobile(mobile))
         == SafeFilenameOf(name) + "_" + NormalizeMobile(mobile) + ".pdf"
  {
    SafeFilenameIgnoresSafeText(name);
    NormalizeMobileIdempotent(mobile);
  }
}
