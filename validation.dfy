/** Input sanitisation and format checks for user-supplied text, files and identifiers. */
module Validation {
  import opened Wrappers
  import opened Text
  import opened JsNumber

  // ---------------------------------------------------------------------------
  // sanitizeInput / sanitizeMedicalText

  const MaxInputLength: nat := 10000
  const MaxMedicalTextLength: nat := 5000

  predicate IsAngleBracket(c: char) {
    c == '<' || c == '>'
  }

  /**
   * `sanitizeInput`: a non-string gives the empty string; otherwise trim, delete every `<`
   * and `>`, and keep at most the first 10000 characters.
   */
  function SanitizeInput(input: Option<string>): (r: string)
    ensures input.None? ==> r == ""
    ensures |r| <= MaxInputLength
    ensures forall i :: 0 <= i < |r| ==> r[i] != '<' && r[i] != '>'
    ensures input.Some? ==> multiset(r) <= multiset(input.value)
  {
    match input
    case None => ""
    case Some(s) =>
      var stripped := Strip(Trim(s), IsAngleBracket);
      TrimMultiset(s);
      TakeMultiset(stripped, MaxInputLength);
      Take(stripped, MaxInputLength)
  }

  /** Text that is already trimmed, short enough and free of angle brackets passes through unchanged. */
  lemma SanitizeInputKeepsCleanText(s: string)
    requires Trim(s) == s && |s| <= MaxInputLength
    requires forall i :: 0 <= i < |s| ==> !IsAngleBracket(s[i])
    ensures SanitizeInput(Some(s)) == s
  {
    StripClean(s, IsAngleBracket);
  }

  /** The control characters `sanitizeMedicalText` deletes: 0x00-0x08, 0x0B, 0x0C and 0x0E-0x1F. */
  predicate IsStrippedControl(c: char) {
    (0 <= c as int <= 0x08) || c as int == 0x0B || c as int == 0x0C || (0x0E <= c as int <= 0x1F)
  }

  /**
   * `sanitizeMedicalText`: a non-string gives the empty string; otherwise trim, keep at most
   * the first 5000 characters, and only then delete the control characters. Tab, line feed
   * and carriage return are not in the deleted class.
   */
  function SanitizeMedicalText(text: Option<string>): (r: string)
    ensures text.None? ==> r == ""
    ensures |r| <= MaxMedicalTextLength
    ensures forall i :: 0 <= i < |r| ==> !IsStrippedControl(r[i])
    ensures text.Some? ==> forall c :: !IsStrippedControl(c) ==>
      multiset(r)[c] == multiset(Take(Trim(text.value), MaxMedicalTextLength))[c]
  {
    match text
    case None => ""
    case Some(s) => Strip(Take(Trim(s), MaxMedicalTextLength), IsStrippedControl)
  }

  /** In particular every tab, line feed and carriage return of the kept prefix survives. */
  lemma MedicalTextKeepsLineStructure(s: string)
    ensures var kept := Take(Trim(s), MaxMedicalTextLength);
      && multiset(SanitizeMedicalText(Some(s)))['\t'] == multiset(kept)['\t']
      && multiset(SanitizeMedicalText(Some(s)))['\n'] == multiset(kept)['\n']
      && multiset(SanitizeMedicalText(Some(s)))['\r'] == multiset(kept)['\r']
  {
    assert !IsStrippedControl('\t') && !IsStrippedControl('\n') && !IsStrippedControl('\r');
  }

  // ---------------------------------------------------------------------------
  // validateEmail

  /** A character of the class `[^\s@]`. */
  predicate IsEmailChar(c: char) {
    !IsSpace(c) && c != '@'
  }

  predicate AllEmailChars(s: string) {
    forall k :: 0 <= k < |s| ==> IsEmailChar(s[k])
  }

  /** What `/^[^\s@]+@[^\s@]+\.[^\s@]+$/` accepts: a local part, `@`, a label, `.`, a label. */
  ghost predicate MatchesEmailPattern(s: string) {
    exists a, d :: 0 < a && a + 1 < d && d + 1 < |s| && s[a] == '@' && s[d] == '.'
      && AllEmailChars(s[..a]) && AllEmailChars(s[a + 1..d]) && AllEmailChars(s[d + 1..])
  }

  /** The first index of `c` in `s`. */
  function IndexOf(s: string, c: char): (r: Option<nat>)
    ensures r.Some? ==> r.value < |s| && s[r.value] == c && c !in s[..r.value]
    ensures r.None? ==> c !in s
    decreases |s|
  {
    if |s| == 0 then None
    else if s[0] == c then Some(0)
    else
      match IndexOf(s[1..], c)
      case None => None
      case Some(i) =>
        assert s[..i + 1] == [s[0]] + s[1..][..i];
        Some(i + 1)
  }

  /** `d` has a `.` that is neither its first nor its last character. */
  predicate HasInnerDot(d: string) {
    |d| >= 3 && '.' in d[1..|d| - 1]
  }

  /**
   * `validateEmail`: no white space anywhere, exactly one `@` with something before it, and a
   * domain after it with a `.` that is neither the domain's first nor its last character.
   */
  function ValidateEmail(email: string): bool {
    (forall k :: 0 <= k < |email| ==> !IsSpace(email[k])) &&
    match IndexOf(email, '@')
    case None => false
    case Some(a) => 0 < a && '@' !in email[a + 1..] && HasInnerDot(email[a + 1..])
  }

  /** A slice all of whose characters are email characters. */
  lemma EmailCharsSlice(s: string, i: nat, j: nat)
    requires i <= j <= |s|
    requires forall k :: i <= k < j ==> IsEmailChar(s[k])
    ensures AllEmailChars(s[i..j])
  {
    var t := s[i..j];
    forall k | 0 <= k < |t| ensures IsEmailChar(t[k]) {
      assert t[k] == s[i + k];
    }
  }

  lemma ValidateEmailSound(s: string)
    requires ValidateEmail(s)
    ensures MatchesEmailPattern(s)
  {
    var a := IndexOf(s, '@').value;
    var dom := s[a + 1..];
    forall k | 0 <= k < |s| && k != a ensures IsEmailChar(s[k]) {
      if k < a {
        assert s[k] == s[..a][k];
        assert s[..a][k] in s[..a];
      } else {
        assert s[k] == dom[k - a - 1];
        assert dom[k - a - 1] in dom;
      }
    }
    var inner := dom[1..|dom| - 1];
    var k :| 0 <= k < |inner| && inner[k] == '.';
    var d := a + 2 + k;
    assert s[d] == inner[k];
    EmailCharsSlice(s, 0, a);
    EmailCharsSlice(s, a + 1, d);
    EmailCharsSlice(s, d + 1, |s|);
    assert s[d + 1..|s|] == s[d + 1..];
  }

  lemma ValidateEmailComplete(s: string)
    requires MatchesEmailPattern(s)
    ensures ValidateEmail(s)
  {
    var a, d :| 0 < a && a + 1 < d && d + 1 < |s| && s[a] == '@' && s[d] == '.'
      && AllEmailChars(s[..a]) && AllEmailChars(s[a + 1..d]) && AllEmailChars(s[d + 1..]);
    ValidateEmailAt(s, a, d);
  }

  /** A string matching the pattern with its `@` at `a` and its `.` at `d` passes the check. */
  lemma ValidateEmailAt(s: string, a: nat, d: nat)
    requires 0 < a && a + 1 < d && d + 1 < |s| && s[a] == '@' && s[d] == '.'
    requires AllEmailChars(s[..a]) && AllEmailChars(s[a + 1..d]) && AllEmailChars(s[d + 1..])
    ensures ValidateEmail(s)
  {
    PatternChars(s, a, d);
    IndexOfFirst(s, '@', a);
    var dom := s[a + 1..];
    assert '@' !in dom by {
      forall j | 0 <= j < |dom| ensures dom[j] != '@' {
        assert dom[j] == s[a + 1 + j];
      }
    }
    assert HasInnerDot(dom) by {
      var inner := dom[1..|dom| - 1];
      assert inner[d - a - 2] == s[d];
    }
    assert forall k :: 0 <= k < |s| ==> !IsSpace(s[k]);
    assert 0 < a && '@' !in s[a + 1..] && HasInnerDot(s[a + 1..]);
  }

  /** Outside the `@`, every character of a matching string is an email character. */
  lemma PatternChars(s: string, a: nat, d: nat)
    requires 0 < a && a + 1 < d && d + 1 < |s| && s[a] == '@' && s[d] == '.'
    requires AllEmailChars(s[..a]) && AllEmailChars(s[a + 1..d]) && AllEmailChars(s[d + 1..])
    ensures forall k :: 0 <= k < |s| ==> !IsSpace(s[k])
    ensures forall k :: 0 <= k < |s| && k != a ==> s[k] != '@'
  {
    var left, mid, right := s[..a], s[a + 1..d], s[d + 1..];
    forall k | 0 <= k < |s| && k != a ensures IsEmailChar(s[k]) {
      if k < a { assert s[k] == left[k]; }
      else if a < k < d { assert s[k] == mid[k - a - 1]; }
      else if k == d { assert !IsSpace('.'); }
      else if d < k { assert s[k] == right[k - d - 1]; }
    }
  }

  /** The first index of `c` is `a` when `c` is at `a` and nowhere before it. */
  lemma IndexOfFirst(s: string, c: char, a: nat)
    requires a < |s| && s[a] == c
    requires forall k :: 0 <= k < a ==> s[k] != c
    ensures IndexOf(s, c) == Some(a)
  {
    assert s[a] in s;
  }

  /** The character-level check accepts exactly the strings the regular expression matches. */
  lemma ValidateEmailIff(s: string)
    ensures ValidateEmail(s) <==> MatchesEmailPattern(s)
  {
    if ValidateEmail(s) { ValidateEmailSound(s); }
    if MatchesEmailPattern(s) { ValidateEmailComplete(s); }
  }

  // ---------------------------------------------------------------------------
  // validateAge

  /** `validateAge`: the `parseInt` of the input is a number (not `NaN`) in [0, 150]. */
  function ValidateAge(age: string): bool {
    match ParseInt(age)
    case None => false
    case Some(n) => 0 <= n <= 150
  }

  /**
   * On the rendering of an integer, possibly followed by a unit such as " years",
   * `validateAge` accepts exactly the ages 0 to 150.
   */
  lemma ValidateAgeOfRendered(n: int, unit: string)
    requires unit == [] || (!IsDigit(unit[0]) && unit[0] != 'x' && unit[0] != 'X')
    ensures ValidateAge(IntToString(n) + unit) <==> 0 <= n <= 150
  {
    ParseIntOfIntToString(n, unit);
  }

  // ---------------------------------------------------------------------------
  // validateImageFile

  /** The parts of a browser `File` the checks look at; `name` is absent when the file has none. */
  datatype UploadFile = UploadFile(name: Option<string>, mimeType: string, size: nat)

  datatype ImageFileRejection = NoFile | UnsupportedType | TooLarge(maxSizeMB: nat) | InvalidName

  datatype ImageFileCheck = Accepted | Rejected(reason: ImageFileRejection)

  const AllowedImageTypes: seq<string> := ["image/jpeg", "image/png", "image/webp"]
  const DefaultMaxSizeMB: nat := 10
  const MaxFileNameLength: nat := 255

  /** The `error` text returned with each rejection. */
  function RejectionMessage(reason: ImageFileRejection): string {
    match reason
    case NoFile => "No file provided"
    case UnsupportedType => "Only JPEG, PNG, and WebP images are allowed"
    case TooLarge(mb) => "File size must be less than " + IntToString(mb) + "MB"
    case InvalidName => "Invalid filename"
  }

  /** The size limit in bytes for a limit given in megabytes. */
  function MaxSizeBytes(maxSizeMB: nat): nat {
    maxSizeMB * 1024 * 1024
  }

  /**
   * `validateImageFile`: the checks run in the order missing file, MIME type, size, file name,
   * and the first one that fails decides the result.
   */
  function ValidateImageFile(file: Option<UploadFile>, maxSizeMB: nat): (r: ImageFileCheck)
    ensures r == Accepted <==>
      && file.Some?
      && file.value.mimeType in AllowedImageTypes
      && file.value.size <= MaxSizeBytes(maxSizeMB)
      && Truthy(file.value.name) && |file.value.name.value| <= MaxFileNameLength
    ensures r == Rejected(NoFile) <==> file.None?
    ensures r == Rejected(UnsupportedType) <==> file.Some? && file.value.mimeType !in AllowedImageTypes
    ensures r == Rejected(TooLarge(maxSizeMB)) <==>
      file.Some? && file.value.mimeType in AllowedImageTypes && file.value.size > MaxSizeBytes(maxSizeMB)
    ensures r.Rejected? && r.reason.TooLarge? ==> r.reason.maxSizeMB == maxSizeMB
  {
    match file
    case None => Rejected(NoFile)
    case Some(f) =>
      if f.mimeType !in AllowedImageTypes then Rejected(UnsupportedType)
      else if f.size > MaxSizeBytes(maxSizeMB) then Rejected(TooLarge(maxSizeMB))
      else if !Truthy(f.name) || |f.name.value| > MaxFileNameLength then Rejected(InvalidName)
      else Accepted
  }

  /** Raising the size limit never turns an accepted file into a rejected one. */
  lemma ValidateImageFileMonotone(file: Option<UploadFile>, m: nat, m': nat)
    requires m <= m' && ValidateImageFile(file, m) == Accepted
    ensures ValidateImageFile(file, m') == Accepted
  {
  }

  // ---------------------------------------------------------------------------
  // escapeHtml

  predicate IsHtmlSpecial(c: char) {
    c == '&' || c == '<' || c == '>' || c == '"' || c == '\''
  }

  /** The replacement the lookup map gives each special character. */
  function EscapeChar(c: char): string {
    if c == '&' then "&amp;"
    else if c == '<' then "&lt;"
    else if c == '>' then "&gt;"
    else if c == '"' then "&quot;"
    else if c == '\'' then "&#039;"
    else [c]
  }

  /** `escapeHtml`: every `& < > " '` replaced by its entity. */
  function EscapeHtml(s: string): (r: string)
    ensures forall i :: 0 <= i < |r| ==> r[i] != '<' && r[i] != '>' && r[i] != '"' && r[i] != '\''
    ensures |r| >= |s|
    ensures (forall i :: 0 <= i < |s| ==> !IsHtmlSpecial(s[i])) ==> r == s
    decreases |s|
  {
    if |s| == 0 then ""
    else
      assert forall i :: 1 <= i < |s| ==> s[1..][i - 1] == s[i];
      EscapeChar(s[0]) + EscapeHtml(s[1..])
  }

  /** Entity decoding as a browser performs it for the five entities `escapeHtml` produces. */
  function UnescapeHtml(t: string): string
    decreases |t|
  {
    if |t| == 0 then ""
    else if StartsWith(t, "&amp;") then "&" + UnescapeHtml(t[5..])
    else if StartsWith(t, "&lt;") then "<" + UnescapeHtml(t[4..])
    else if StartsWith(t, "&gt;") then ">" + UnescapeHtml(t[4..])
    else if StartsWith(t, "&quot;") then "\"" + UnescapeHtml(t[6..])
    else if StartsWith(t, "&#039;") then "'" + UnescapeHtml(t[6..])
    else [t[0]] + UnescapeHtml(t[1..])
  }

  lemma UnescapeEscapeChar(c: char, rest: string)
    ensures UnescapeHtml(EscapeChar(c) + rest) == [c] + UnescapeHtml(rest)
  {
    if c == '&' {
      UnescapeEntity("&amp;", "&", rest);
    } else if c == '<' {
      UnescapeEntity("&lt;", "<", rest);
    } else if c == '>' {
      UnescapeEntity("&gt;", ">", rest);
    } else if c == '"' {
      UnescapeEntity("&quot;", "\"", rest);
    } else if c == '\'' {
      UnescapeEntity("&#039;", "'", rest);
    } else {
      var t := [c] + rest;
      assert t[0] == c && t[1..] == rest;
      assert !StartsWith(t, "&amp;") && !StartsWith(t, "&lt;") && !StartsWith(t, "&gt;")
        && !StartsWith(t, "&quot;") && !StartsWith(t, "&#039;") by {
        assert t[..1] == [c];
      }
    }
  }

  /** One of the five entities followed by more text decodes to its character followed by the rest decoded. */
  lemma UnescapeEntity(e: string, c: string, rest: string)
    requires (e, c) in {("&amp;", "&"), ("&lt;", "<"), ("&gt;", ">"), ("&quot;", "\""), ("&#039;", "'")}
    ensures UnescapeHtml(e + rest) == c + UnescapeHtml(rest)
  {
    var t := e + rest;
    assert t[..|e|] == e;
    assert t[|e|..] == rest;
    assert t[1] == e[1];
    if e == "&amp;" {
      assert StartsWith(t, "&amp;");
    } else if e == "&lt;" {
      assert !StartsWith(t, "&amp;") && StartsWith(t, "&lt;");
    } else if e == "&gt;" {
      assert !StartsWith(t, "&amp;") && !StartsWith(t, "&lt;") && StartsWith(t, "&gt;");
    } else if e == "&quot;" {
      assert !StartsWith(t, "&amp;") && !StartsWith(t, "&lt;") && !StartsWith(t, "&gt;");
      assert StartsWith(t, "&quot;");
    } else {
      assert !StartsWith(t, "&amp;") && !StartsWith(t, "&lt;") && !StartsWith(t, "&gt;");
      assert !StartsWith(t, "&quot;") && StartsWith(t, "&#039;");
    }
  }

  /** Decoding the escaped text gives back the original: `escapeHtml` loses no information. */
  lemma {:induction false} EscapeHtmlRoundTrip(s: string)
    ensures UnescapeHtml(EscapeHtml(s)) == s
    decreases |s|
  {
    if |s| > 0 {
      EscapeHtmlRoundTrip(s[1..]);
      UnescapeEscapeChar(s[0], EscapeHtml(s[1..]));
      assert s == [s[0]] + s[1..];
    }
  }

  // ---------------------------------------------------------------------------
  // validateUUID

  predicate IsUuidHyphenIndex(i: int) {
    i == 8 || i == 13 || i == 18 || i == 23
  }

  /** Position `i` of `s` holds what the UUID pattern expects there. */
  predicate UuidCharOk(s: string, i: nat)
    requires i < |s|
  {
    if IsUuidHyphenIndex(i) then s[i] == '-' else IsHexDigit(s[i])
  }

  function UuidScan(s: string, i: nat): (r: bool)
    requires i <= |s|
    ensures r <==> forall k :: i <= k < |s| ==> UuidCharOk(s, k)
    decreases |s| - i
  {
    i == |s| || (UuidCharOk(s, i) && UuidScan(s, i + 1))
  }

  /**
   * `validateUUID` (case-insensitive): 36 characters, hyphens at 8, 13, 18 and 23, hexadecimal
   * digits elsewhere. No version or variant digit is checked.
   */
  function ValidateUUID(s: string): (r: bool)
    ensures r <==> |s| == 36 && forall k :: 0 <= k < 36 ==> UuidCharOk(s, k)
  {
    |s| == 36 && UuidScan(s, 0)
  }

  predicate AllHex(s: string) {
    forall k :: 0 <= k < |s| ==> IsHexDigit(s[k])
  }

  /** A slice of hexadecimal digits. */
  lemma HexSlice(s: string, i: nat, j: nat)
    requires i <= j <= |s|
    ensures AllHex(s[i..j]) <==> forall k :: i <= k < j ==> IsHexDigit(s[k])
  {
    var t := s[i..j];
    assert forall k :: i <= k < j ==> t[k - i] == s[k];
  }

  /** The accepted strings are exactly the five hexadecimal groups 8-4-4-4-12 joined by hyphens. */
  lemma ValidateUUIDGroups(s: string)
    ensures ValidateUUID(s) <==>
      && |s| == 36
      && AllHex(s[..8]) && s[8] == '-' && AllHex(s[9..13]) && s[13] == '-'
      && AllHex(s[14..18]) && s[18] == '-' && AllHex(s[19..23]) && s[23] == '-'
      && AllHex(s[24..])
  {
    if |s| == 36 {
      HexSlice(s, 0, 8);
      HexSlice(s, 9, 13);
      HexSlice(s, 14, 18);
      HexSlice(s, 19, 23);
      HexSlice(s, 24, 36);
      assert s[..8] == s[0..8];
      assert s[24..] == s[24..36];
      if ValidateUUID(s) {
        forall k | 0 <= k < 36 && !IsUuidHyphenIndex(k) ensures IsHexDigit(s[k]) {
          assert UuidCharOk(s, k);
        }
        assert AllHex(s[0..8]);
        assert AllHex(s[9..13]);
        assert AllHex(s[14..18]);
        assert AllHex(s[19..23]);
        assert AllHex(s[24..36]);
        assert UuidCharOk(s, 8) && UuidCharOk(s, 13) && UuidCharOk(s, 18) && UuidCharOk(s, 23);
      } else {
        var k :| 0 <= k < 36 && !UuidCharOk(s, k);
        assert IsUuidHyphenIndex(k) || !IsHexDigit(s[k]);
      }
    }
  }

  // ---------------------------------------------------------------------------
  // validateUserID

  /** A character of `[a-zA-Z0-9_-]`. */
  predicate IsUserIdChar(c: char) {
    'a' <= c <= 'z' || 'A' <= c <= 'Z' || IsDigit(c) || c == '_' || c == '-'
  }

  function AllUserIdChars(s: string): (r: bool)
    ensures r <==> forall k :: 0 <= k < |s| ==> IsUserIdChar(s[k])
    decreases |s|
  {
    |s| == 0 || (IsUserIdChar(s[0]) && AllUserIdChars(s[1..]))
  }

  const MaxUserIdLength: nat := 255

  /** `validateUserID`: 1 to 255 characters, each a letter, digit, `_` or `-`. */
  function ValidateUserID(userId: string): (r: bool)
    ensures r <==> 0 < |userId| <= MaxUserIdLength && forall k :: 0 <= k < |userId| ==> IsUserIdChar(userId[k])
  {
    0 < |userId| && AllUserIdChars(userId) && |userId| < 256
  }

  /** Identifiers that pass `validateUserID` or `validateUUID` are left unchanged by the sanitisers. */
  lemma ValidIdentifiersNeedNoSanitising(id: string)
    requires ValidateUserID(id) || ValidateUUID(id)
    ensures SanitizeInput(Some(id)) == id
    ensures EscapeHtml(id) == id
  {
    assert forall k :: 0 <= k < |id| ==> !IsSpace(id[k]) && !IsHtmlSpecial(id[k]) by {
      forall k | 0 <= k < |id| ensures !IsSpace(id[k]) && !IsHtmlSpecial(id[k]) {
        if ValidateUUID(id) { assert UuidCharOk(id, k); }
      }
    }
    TrimOfTrimmed(id);
    SanitizeInputKeepsCleanText(id);
  }
}
