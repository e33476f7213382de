/**
 * The sanitizer catalog: the table from untrusted source name to sanitizer method, and
 * the sanitizers whose steps have statable results.
 *
 * Steps backed by libraries (Unicode normalization, URL decoding, JSON and HTML
 * cleaning) and the regular expressions with lazy quantifiers or keyword alternations
 * are the fields of a `TextLibrary` value the sanitizers receive.
 */
module InputSanitizer {
  import opened Wrappers
  import opened Text

  /** The library-backed steps, each as the function of its input the library computes. */
  datatype TextLibrary = TextLibrary(
    normalizeNfkc: string -> string,        // Normalizer.normalize(_, NFKC)
    removeScripts: string -> string,        // (?i)(<script.*?>.*?</script>|javascript:|on\w+=)
    removeSqlKeywords: string -> string,    // (?i)(DROP|SELECT|...|--|;|\*|=)
    removePathSequences: string -> string,  // (\.{2,}/|\.{2,}\\|~|/|\\)
    removeShellKeywords: string -> string,  // (?i)(rm -rf|sudo|chmod|...|grep)
    removeHtmlComments: string -> string,   // <!--.*?-->
    urlDecode: string -> Option<string>,    // URLDecoder.decode(_, "UTF-8"); None when it throws
    removeUnsafeSchemes: string -> string,  // (?i)mailto:|javascript:|data:|file:
    removeLinks: string -> string,          // (https?|ftp)://[^\s]+
    sanitizeJson: string -> Result<string>, // Jackson round trip with string fields sanitized
    sanitizeHtmlOrXml: string -> Result<string>) // Jsoup clean with the basic safelist

  predicate IsAsciiString(s: string) {
    forall c :: c in s ==> c as int < 0x80
  }

  /** Compatibility normalization leaves a pure-ASCII string as it is. */
  ghost predicate NfkcKeepsAscii(lib: TextLibrary) {
    forall s :: IsAsciiString(s) ==> lib.normalizeNfkc(s) == s
  }

  // ---------------------------------------------------------------------------------
  // The source-to-sanitizer table

  /** `capitalizeFirstLetter`: the first character in upper case, the rest as it is. */
  function CapitalizeFirstLetter(input: string): (r: string)
    ensures |r| == |input|
    ensures input != [] ==> r[0] == AsciiUpper(input[0]) && r[1..] == input[1..]
  {
    if input == [] then input else [AsciiUpper(input[0])] + input[1..]
  }

  /** Capitalizing twice is capitalizing once. */
  lemma CapitalizeIdempotent(input: string)
    ensures CapitalizeFirstLetter(CapitalizeFirstLetter(input)) == CapitalizeFirstLetter(input)
  {
  }

  /** The qualified name of the sanitizer for `source`. */
  function SanitizerName(source: string): (name: string)
    ensures |name| == |"InputSanitizer.sanitize"| + |source|
    ensures name[..|"InputSanitizer.sanitize"|] == "InputSanitizer.sanitize"
  {
    "InputSanitizer." + ("sanitize" + CapitalizeFirstLetter(source))
  }

  /** The sanitizer of a source is `sanitize` followed by the source name with its initial upper-cased. */
  lemma SanitizerNameOf(initial: char, rest: string)
    ensures SanitizerName([initial] + rest) == "InputSanitizer.sanitize" + [AsciiUpper(initial)] + rest
  {
    assert ([initial] + rest)[1..] == rest;
  }

  /** The `userInput` source finds the user-input sanitizer this catalog defines. */
  lemma UserInputHasSanitizer()
    ensures SanitizerName("userInput") == "InputSanitizer.sanitizeUserInput"
  {
    SanitizerNameOf('u', "serInput");
    assert "userInput" == ['u'] + "serInput";
  }

  /** The source-to-sanitizer table for a list of untrusted source names. */
  function SanitizerTable(inputSources: seq<string>): (table: map<string, string>)
    ensures forall s :: s in table <==> s in inputSources
    ensures forall s :: s in table ==> table[s] == SanitizerName(s)
  {
    map s | s in inputSources :: SanitizerName(s)
  }

  /**
   * `creationMapping`: every untrusted source name, mapped to its sanitizer; nothing
   * for an empty list.
   */
  method CreationMapping(inputSources: seq<string>) returns (sanitizationMethods: map<string, string>)
    ensures forall s :: s in sanitizationMethods <==> s in inputSources
    ensures forall s :: s in sanitizationMethods ==> sanitizationMethods[s] == SanitizerName(s)
    ensures sanitizationMethods == SanitizerTable(inputSources)
  {
    sanitizationMethods := map[];
    if |inputSources| > 0 {
      for i := 0 to |inputSources|
        invariant forall s :: s in sanitizationMethods <==> s in inputSources[..i]
        invariant forall s :: s in sanitizationMethods ==> sanitizationMethods[s] == SanitizerName(s)
      {
        var source := inputSources[i];
        var methodName := "sanitize" + CapitalizeFirstLetter(source);
        assert inputSources[..i + 1] == inputSources[..i] + [source];
        sanitizationMethods := sanitizationMethods[source := "InputSanitizer." + methodName];
      }
      assert inputSources[..|inputSources|] == inputSources;
    }
  }

  // ---------------------------------------------------------------------------------
  // Character classes of the filtering steps

  predicate IsQuoteOrAngle(c: char) {
    c == '<' || c == '>' || c == '"' || c == '\''
  }

  /** The class kept by the user-input filter: letters, digits, space and `.,!?@#%&()_-`. */
  predicate IsUserInputChar(c: char) {
    IsAsciiLetterOrDigit(c) || c in " .,!?@#%&()_-"
  }

  /** The class kept by the command-line filter; its `'-_` is a range, from `'` to `_`. */
  predicate IsCommandLineChar(c: char) {
    IsAsciiLetterOrDigit(c) || c in " .,!?@#%&()[]{}:;\"+|/\\" || ('\'' <= c <= '_')
  }

  /** The shell symbols `$`|;&<>*?!"'`. */
  predicate IsShellSymbol(c: char) {
    c == '$' || c == '`' || c == '|' || c == ';' || c == '&' || c == '<' || c == '>'
    || c == '*' || c == '?' || c == '!' || c == '"' || c == '\''
  }

  /** The class kept by the e-mail filter: letters, digits, `@._%+-` and `\s`. */
  predicate IsEmailChar(c: char) {
    IsAsciiLetterOrDigit(c) || c in "@._%+-" || IsRegexSpace(c)
  }

  /** The class kept for file names: letters, digits, `.`, `_` and `-`. */
  predicate IsFileNameChar(c: char) {
    IsAsciiLetterOrDigit(c) || c == '.' || c == '_' || c == '-'
  }

  /** Result of `strip`: no whitespace at either end. */
  predicate Stripped(s: string) {
    s == [] || (!IsJavaWhitespace(s[0]) && !IsJavaWhitespace(s[|s| - 1]))
  }

  // ---------------------------------------------------------------------------------
  // Sanitizers

  /** `sanitizeString`: quotes and angle brackets removed, then stripped; `""` for null. */
  function SanitizeString(input: Option<string>): (r: string)
    ensures input.None? ==> r == []
    ensures forall c :: c in r ==> !IsQuoteOrAngle(c)
    ensures Stripped(r)
    ensures forall c :: c in r ==> input.Some? && c in input.value
    ensures input.Some? ==> forall c :: c in input.value && !IsQuoteOrAngle(c) && !IsJavaWhitespace(c) ==> c in r
    ensures input.Some? && (forall c :: c in input.value ==> !IsQuoteOrAngle(c)) && Stripped(input.value)
            ==> r == input.value
  {
    if input.None? then []
    else if forall c :: c in input.value ==> !IsQuoteOrAngle(c) then
      FilterKeepsAccepted(input.value, c => !IsQuoteOrAngle(c));
      Strip(Filter(input.value, c => !IsQuoteOrAngle(c)))
    else Strip(Filter(input.value, c => !IsQuoteOrAngle(c)))
  }

  /** Sanitizing a sanitized string changes nothing. */
  lemma {:induction false} SanitizeStringIdempotent(input: Option<string>)
    ensures SanitizeString(Some(SanitizeString(input))) == SanitizeString(input)
  {
    var once := SanitizeString(input);
    FilterKeepsAccepted(once, c => !IsQuoteOrAngle(c));
    StripWithStable(once, IsJavaWhitespace);
  }

  /**
   * `sanitizeUserInput`: at most 1024 characters, stripped; `""` for null. When the
   * normalization keeps ASCII text as it is, only the characters of the filter's class
   * remain.
   */
  method SanitizeUserInput(input: Option<string>, lib: TextLibrary) returns (r: string)
    ensures input.None? ==> r == []
    ensures |r| <= 1024
    ensures Stripped(r)
    ensures NfkcKeepsAscii(lib) ==> forall c :: c in r ==> IsUserInputChar(c)
  {
    if input.None? {
      return [];
    }
    var s := input.value;
    s := RemoveTags(s);
    s := lib.removeScripts(s);
    s := lib.removeSqlKeywords(s);
    s := Filter(s, IsUserInputChar);
    var filtered := s;
    s := lib.normalizeNfkc(s);
    s := Truncate(s, 1024);
    r := Strip(s);
    if NfkcKeepsAscii(lib) {
      UserInputCharsAreAscii(filtered);
      assert lib.normalizeNfkc(filtered) == filtered;
    }
  }

  /** The user-input class is ASCII, so normalization has nothing to change in a filtered string. */
  lemma UserInputCharsAreAscii(s: string)
    requires forall c :: c in s ==> IsUserInputChar(c)
    ensures IsAsciiString(s)
  {
    forall c | c in s
      ensures c as int < 0x80
    {
      assert IsUserInputChar(c);
    }
  }

  /**
   * `sanitizeCommandLineArgs`: at most 1024 characters, all of the filter's class and
   * none a shell symbol, whitespace only as single spaces, stripped; `""` for null.
   */
  method SanitizeCommandLineArgs(input: Option<string>, lib: TextLibrary) returns (r: string)
    ensures input.None? ==> r == []
    ensures |r| <= 1024
    ensures forall c :: c in r ==> IsCommandLineChar(c) && !IsShellSymbol(c)
    ensures forall k :: 0 <= k < |r| && IsRegexSpace(r[k]) ==> r[k] == ' '
    ensures forall k :: 0 <= k < |r| - 1 ==> !(r[k] == ' ' && r[k + 1] == ' ')
    ensures Stripped(r)
  {
    if input.None? {
      return [];
    }
    var s := input.value;
    s := Filter(s, c => !IsCntrl(c));
    s := lib.normalizeNfkc(s);
    s := lib.removePathSequences(s);
    s := lib.removeShellKeywords(s);
    s := Filter(s, c => !IsShellSymbol(c));
    s := Filter(s, IsCommandLineChar);
    s := Truncate(s, 1024);
    s := CollapseWhitespace(s);
    r := Strip(s);
    StripKeepsSingleSpaces(s);
  }

  /**
   * `sanitizeEmailInput`: at most 512 characters, only letters, digits, `@._%+-` and
   * single spaces, stripped; `""` for null.
   */
  method SanitizeEmailInput(input: Option<string>, lib: TextLibrary) returns (r: string)
    ensures input.None? ==> r == []
    ensures |r| <= 512
    ensures forall c :: c in r ==> IsAsciiLetterOrDigit(c) || c in "@._%+- "
    ensures forall k :: 0 <= k < |r| - 1 ==> !(r[k] == ' ' && r[k + 1] == ' ')
    ensures Stripped(r)
  {
    if input.None? {
      return [];
    }
    var s := input.value;
    s := Filter(s, c => !IsCntrl(c));
    s := lib.normalizeNfkc(s);
    s := lib.removeHtmlComments(s);
    s := RemoveTags(s);
    var decoded := lib.urlDecode(s);
    if decoded.Some? {
      s := decoded.value;
    }
    // a decoding error is ignored
    s := lib.removeUnsafeSchemes(s);
    s := lib.removeLinks(s);
    s := Filter(s, IsEmailChar);
    s := Truncate(s, 512);
    s := CollapseWhitespace(s);
    r := Strip(s);
    StripKeepsSingleSpaces(s);
  }

  /** `input.trim()` starts with `{` and ends with `}`. */
  predicate JsonLike(input: string) {
    var t := Trim(input);
    |t| > 0 && t[0] == '{' && t[|t| - 1] == '}'
  }

  /** `input.trim()` starts with `<` and ends with `>`. */
  predicate MarkupLike(input: string) {
    var t := Trim(input);
    |t| > 0 && t[0] == '<' && t[|t| - 1] == '>'
  }

  /**
   * `sanitizeApiResponse`: refuses more than 4096 characters; JSON-like text goes to the
   * JSON cleaner, markup-like text to the HTML cleaner, anything else to `sanitizeString`.
   */
  method SanitizeApiResponse(input: Option<string>, lib: TextLibrary) returns (r: Result<string>)
    ensures input.None? ==> r == Ok([])
    ensures input.Some? && |input.value| > 4096 ==> r.Err?
    ensures input.Some? && |input.value| <= 4096 && JsonLike(input.value) ==> r == lib.sanitizeJson(input.value)
    ensures input.Some? && |input.value| <= 4096 && !JsonLike(input.value) && MarkupLike(input.value)
            ==> r == lib.sanitizeHtmlOrXml(input.value)
    ensures input.Some? && |input.value| <= 4096 && !JsonLike(input.value) && !MarkupLike(input.value)
            ==> r == Ok(SanitizeString(input))
  {
    if input.None? {
      return Ok([]);
    }
    if |input.value| > 4096 {
      return Err("API response too large.");
    }
    if JsonLike(input.value) {
      return lib.sanitizeJson(input.value);
    }
    if MarkupLike(input.value) {
      return lib.sanitizeHtmlOrXml(input.value);
    }
    r := Ok(SanitizeString(input));
  }

  /** The Windows device names a file may not be called. */
  const ReservedNames: seq<string> := [
    "CON", "PRN", "AUX", "NUL",
    "COM1", "COM2", "COM3", "COM4", "COM5", "COM6", "COM7", "COM8", "COM9",
    "LPT1", "LPT2", "LPT3", "LPT4", "LPT5", "LPT6", "LPT7", "LPT8", "LPT9"]

  predicate IsReserved(name: string) {
    exists i :: 0 <= i < |ReservedNames| && EqualsIgnoreCase(name, ReservedNames[i])
  }

  /**
   * The file name the upload sanitizer checks: controls removed, normalized, `../`
   * removed, backslashes turned into slashes, filtered to file-name characters and cut
   * to 255 characters.
   */
  function UploadCandidate(input: string, lib: TextLibrary): (name: string)
    ensures |name| <= 255
    ensures forall c :: c in name ==> IsFileNameChar(c)
  {
    var s := Filter(input, c => !IsCntrl(c));
    var s := lib.normalizeNfkc(s);
    var s := ReplaceChar(RemoveAll(s, "../"), '\\', '/');
    var s := Filter(s, IsFileNameChar);
    Truncate(s, 255)
  }

  /**
   * `sanitizeUploadFile`: refuses a null or empty name and a name that, once cleaned,
   * is a reserved device name in any letter case; otherwise the cleaned name, at most 255
   * file-name characters.
   */
  method SanitizeUploadFile(input: Option<string>, lib: TextLibrary) returns (r: Result<string>)
    ensures input.None? || input.value == [] ==> r.Err?
    ensures input.Some? && input.value != [] ==> (r.Err? <==> IsReserved(UploadCandidate(input.value, lib)))
    ensures r.Ok? ==> r.value == UploadCandidate(input.value, lib)
    ensures r.Ok? ==> |r.value| <= 255 && (forall c :: c in r.value ==> IsFileNameChar(c)) && !IsReserved(r.value)
  {
    if input.None? || input.value == [] {
      return Err("Invalid file name.");
    }
    var s := input.value;
    s := Filter(s, c => !IsCntrl(c));
    s := lib.normalizeNfkc(s);
    s := ReplaceChar(RemoveAll(s, "../"), '\\', '/');
    s := Filter(s, IsFileNameChar);
    s := Truncate(s, 255);
    assert s == UploadCandidate(input.value, lib);
    var reservedNames := ReservedNames;
    for i := 0 to |reservedNames|
      invariant forall j :: 0 <= j < i ==> !EqualsIgnoreCase(s, reservedNames[j])
    {
      if EqualsIgnoreCase(s, reservedNames[i]) {
        return Err("Invalid file name: reserved name.");
      }
    }
    assert s != [] ==> s[0] in s && s[|s| - 1] in s;
    StripWithStable(s, IsJavaWhitespace);
    r := Ok(Strip(s));
  }
}
