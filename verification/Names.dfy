/** The DNS-1123 name patterns: what the regular expressions mean, the split-at-dots reading of the
    subdomain pattern, and a one-pass scanner that decides both. */
module Names {
  import opened Wrappers
  import GoText

  // ----- Regular expressions -----

  datatype Re =
    | AlphaNum               // [a-z0-9]
    | DashAlphaNum           // [-a-z0-9]
    | Dot                    // \.
    | Then(first: Re, second: Re)
    | Optional(inner: Re)
    | Star(inner: Re)

  predicate IsAlphaNum(c: char) { 'a' <= c <= 'z' || '0' <= c <= '9' }

  predicate IsDashAlphaNum(c: char) { c == '-' || IsAlphaNum(c) }

  /** `s` as a whole is in the language of `r`. */
  ghost predicate Matches(r: Re, s: string)
    decreases r, |s|
  {
    match r
    case AlphaNum => |s| == 1 && IsAlphaNum(s[0])
    case DashAlphaNum => |s| == 1 && IsDashAlphaNum(s[0])
    case Dot => s == "."
    case Then(a, b) => exists i {:trigger Cut(s, i)} :: Cut(s, i) && Matches(a, s[..i]) && Matches(b, s[i..])
    case Optional(a) => s == "" || Matches(a, s)
    case Star(a) =>
      s == "" ||
      exists i {:trigger Cut(s, i)} :: Cut(s, i) && i > 0 && Matches(a, s[..i]) && Matches(Star(a), s[i..])
  }

  /** `s` can be cut before position `i`. */
  predicate Cut(s: string, i: int) { 0 <= i <= |s| }

  /** `[a-z0-9]([-a-z0-9]*[a-z0-9])?` */
  const LABEL := Then(AlphaNum, Optional(Then(Star(DashAlphaNum), AlphaNum)))

  /** `LABEL(\.LABEL)*` */
  const SUBDOMAIN := Dotted(LABEL)

  function Dotted(part: Re): Re { Then(part, Star(Then(Dot, part))) }

  // ----- Validators -----

  datatype NameError = NameRequired | InvalidName | InvalidNamespace

  /** `ValidateName`; None means the name is accepted. */
  ghost function ValidateName(name: string): Option<NameError> {
    if name == "" then Some(NameRequired)
    else if |name| > 253 || !Matches(SUBDOMAIN, name) then Some(InvalidName)
    else None
  }

  /** `ValidateNamespace`; an empty namespace is resolved later and so accepted. */
  ghost function ValidateNamespace(ns: string): Option<NameError> {
    if ns == "" then None
    else if |ns| > 63 || !Matches(LABEL, ns) then Some(InvalidNamespace)
    else None
  }

  // ----- The label pattern -----

  predicate IsLabel(s: string) {
    s != "" && IsAlphaNum(s[0]) && IsAlphaNum(s[|s| - 1]) && forall i | 0 <= i < |s| :: IsDashAlphaNum(s[i])
  }

  lemma {:induction false} StarOfClass(s: string)
    ensures Matches(Star(DashAlphaNum), s) <==> forall i | 0 <= i < |s| :: IsDashAlphaNum(s[i])
    decreases |s|
  {
    if s != "" {
      StarOfClass(s[1..]);
      assert s[..1] == [s[0]];
      if Matches(Star(DashAlphaNum), s) {
        var i :| Cut(s, i) && i > 0 && Matches(DashAlphaNum, s[..i]) && Matches(Star(DashAlphaNum), s[i..]);
        assert i == 1;
        forall k | 0 <= k < |s| ensures IsDashAlphaNum(s[k]) {
          if k > 0 { assert s[k] == s[1..][k - 1]; }
        }
      }
      if forall i | 0 <= i < |s| :: IsDashAlphaNum(s[i]) {
        assert Cut(s, 1) && Matches(DashAlphaNum, s[..1]) && Matches(Star(DashAlphaNum), s[1..]);
      }
    }
  }

  /** The label pattern accepts exactly the non-empty strings of its class that neither start nor end
      with a dash. */
  lemma LabelPattern(s: string)
    ensures Matches(LABEL, s) <==> IsLabel(s)
  {
    var tail := Then(Star(DashAlphaNum), AlphaNum);
    if Matches(LABEL, s) {
      var i :| Cut(s, i) && Matches(AlphaNum, s[..i]) && Matches(Optional(tail), s[i..]);
      assert i == 1 && s[..1][0] == s[0];
      if s[1..] != "" {
        var t := s[1..];
        assert Matches(Optional(tail), t);
        assert Matches(tail, t);
        var j :| Cut(t, j) && Matches(Star(DashAlphaNum), t[..j]) && Matches(AlphaNum, t[j..]);
        StarOfClass(t[..j]);
        assert j == |t| - 1 && t[j..][0] == s[|s| - 1];
        forall k | 0 <= k < |s| ensures IsDashAlphaNum(s[k]) {
          if 0 < k < |s| - 1 { assert s[k] == t[..j][k - 1]; }
        }
      }
    }
    if IsLabel(s) {
      assert Matches(AlphaNum, s[..1]);
      var t := s[1..];
      if t != "" {
        var j := |t| - 1;
        StarOfClass(t[..j]);
        assert Cut(t, j) && Matches(Star(DashAlphaNum), t[..j]) && Matches(AlphaNum, t[j..]);
        assert Matches(tail, t);
      }
      assert Matches(Optional(tail), s[1..]);
      assert Cut(s, 1) && Matches(LABEL, s);
    }
  }

  // ----- The subdomain pattern -----

  function FirstDot(s: string): nat { GoText.FirstOf(s, '.') }

  /** `strings.Split(s, ".")`. */
  function SplitDots(s: string): seq<string>
    decreases |s|
  {
    var i := FirstDot(s);
    if i == |s| then [s] else [s[..i]] + SplitDots(s[i + 1..])
  }

  ghost predicate AllLabels(parts: seq<string>) { forall p | p in parts :: Matches(LABEL, p) }

  /** `part` accepts no string with a dot in it. */
  ghost predicate DotFree(part: Re) { forall t | Matches(part, t) :: '.' !in t }

  /** A label followed by dotted labels: the first label reaches exactly to the first dot. */
  lemma DottedUnfolds(part: Re, s: string)
    requires DotFree(part)
    ensures var i := FirstDot(s);
            Matches(Dotted(part), s) <==> Matches(part, s[..i]) && (i == |s| || Matches(Dotted(part), s[i + 1..]))
  {
    if Matches(Dotted(part), s) { DottedSplits(part, s); }
    var i := FirstDot(s);
    if Matches(part, s[..i]) && (i == |s| || Matches(Dotted(part), s[i + 1..])) {
      if i < |s| { DottedTail(part, s, i); }
      ThenJoins(part, Star(Then(Dot, part)), s, i);
    }
  }

  lemma DottedSplits(part: Re, s: string)
    requires DotFree(part) && Matches(Dotted(part), s)
    ensures var i := FirstDot(s);
            Matches(part, s[..i]) && (i == |s| || Matches(Dotted(part), s[i + 1..]))
  {
    var k := ThenSplits(part, Star(Then(Dot, part)), s);
    DotFreePrefix(part, s, k);
    if k < |s| {
      StarStartsWithDot(part, s[k..]);
      assert s[k..][1..] == s[k + 1..];
    }
  }

  lemma DotFreePrefix(part: Re, s: string, k: nat)
    requires DotFree(part) && k <= |s| && Matches(part, s[..k])
    ensures k <= FirstDot(s) && (k == |s| || s[k] == '.' ==> k == FirstDot(s))
  {
    assert forall j | 0 <= j < k :: s[..k][j] in s[..k];
  }

  lemma ThenSplits(a: Re, b: Re, s: string) returns (i: nat)
    requires Matches(Then(a, b), s)
    ensures i <= |s| && Matches(a, s[..i]) && Matches(b, s[i..])
  {
    i :| Cut(s, i) && Matches(a, s[..i]) && Matches(b, s[i..]);
  }

  lemma ThenJoins(a: Re, b: Re, s: string, i: nat)
    requires i <= |s| && Matches(a, s[..i]) && Matches(b, s[i..])
    ensures Matches(Then(a, b), s)
  {
    assert Cut(s, i);
  }

  lemma StarSplits(r: Re, s: string) returns (j: nat)
    requires s != "" && Matches(Star(r), s)
    ensures 0 < j <= |s| && Matches(r, s[..j]) && Matches(Star(r), s[j..])
  {
    j :| Cut(s, j) && j > 0 && Matches(r, s[..j]) && Matches(Star(r), s[j..]);
  }

  lemma StarJoins(r: Re, s: string, j: nat)
    requires 0 < j <= |s| && Matches(r, s[..j]) && Matches(Star(r), s[j..])
    ensures Matches(Star(r), s)
  {
    assert Cut(s, j);
  }

  lemma DotThenSplits(part: Re, s: string)
    requires Matches(Then(Dot, part), s)
    ensures s != "" && s[0] == '.' && Matches(part, s[1..])
  {
    var d := ThenSplits(Dot, part, s);
    assert d == 1 && s[..1][0] == s[0];
  }

  lemma TailSlices(t: string, j: nat)
    requires 0 < j <= |t|
    ensures t[..j][1..] == t[1..][..j - 1] && t[j..] == t[1..][j - 1..]
  {}

  lemma StarStartsWithDot(part: Re, t: string)
    requires t != "" && Matches(Star(Then(Dot, part)), t)
    ensures t[0] == '.' && Matches(Dotted(part), t[1..])
  {
    var j := StarSplits(Then(Dot, part), t);
    DotThenSplits(part, t[..j]);
    TailSlices(t, j);
    ThenJoins(part, Star(Then(Dot, part)), t[1..], j - 1);
  }

  lemma DottedTail(part: Re, s: string, i: nat)
    requires i < |s| && s[i] == '.' && Matches(Dotted(part), s[i + 1..])
    ensures Matches(Star(Then(Dot, part)), s[i..])
  {
    var rest, t := s[i + 1..], s[i..];
    var k := ThenSplits(part, Star(Then(Dot, part)), rest);
    var head := t[..k + 1];
    assert head[..1] == "." && head[1..] == rest[..k] && t[k + 1..] == rest[k..];
    ThenJoins(Dot, part, head, 1);
    StarJoins(Then(Dot, part), t, k + 1);
  }

  lemma SubdomainUnfolds(s: string)
    ensures var i := FirstDot(s);
            Matches(SUBDOMAIN, s) <==> Matches(LABEL, s[..i]) && (i == |s| || Matches(SUBDOMAIN, s[i + 1..]))
  {
    forall t | Matches(LABEL, t) ensures '.' !in t {
      LabelPattern(t);
    }
    DottedUnfolds(LABEL, s);
  }

  /** The subdomain pattern accepts exactly the strings whose dot-separated parts the label pattern
      accepts. */
  lemma {:induction false} SubdomainIsDottedLabels(s: string)
    ensures Matches(SUBDOMAIN, s) <==> AllLabels(SplitDots(s))
    decreases |s|
  {
    var i := FirstDot(s);
    SubdomainUnfolds(s);
    if i < |s| {
      SubdomainIsDottedLabels(s[i + 1..]);
      var parts := SplitDots(s);
      assert parts[0] == s[..i] && parts[1..] == SplitDots(s[i + 1..]);
      assert AllLabels(parts) <==> Matches(LABEL, parts[0]) && AllLabels(parts[1..]) by {
        assert parts == [parts[0]] + parts[1..];
      }
    } else {
      assert s[..i] == s;
    }
  }

  // ----- A one-pass scanner -----

  /** What the last character read was. */
  datatype Last = LabelStart | AlphaNumChar | DashChar

  predicate Scan(s: string, last: Last, dots: bool) {
    if s == "" then last == AlphaNumChar
    else if IsAlphaNum(s[0]) then Scan(s[1..], AlphaNumChar, dots)
    else if s[0] == '-' then last != LabelStart && Scan(s[1..], DashChar, dots)
    else if s[0] == '.' then dots && last == AlphaNumChar && Scan(s[1..], LabelStart, dots)
    else false
  }

  /** What is still needed of the current part once `last` has been read. */
  predicate Completes(s: string, last: Last) {
    match last
    case LabelStart => IsLabel(s)
    case AlphaNumChar => s == "" || (IsAlphaNum(s[|s| - 1]) && forall i | 0 <= i < |s| :: IsDashAlphaNum(s[i]))
    case DashChar => s != "" && IsAlphaNum(s[|s| - 1]) && forall i | 0 <= i < |s| :: IsDashAlphaNum(s[i])
  }

  lemma CompletesUnfolds(s: string, last: Last)
    ensures Completes(s, last) <==>
      if s == "" then last == AlphaNumChar
      else if IsAlphaNum(s[0]) then Completes(s[1..], AlphaNumChar)
      else s[0] == '-' && last != LabelStart && Completes(s[1..], DashChar)
  {
    if s != "" {
      var t := s[1..];
      assert t != "" ==> t[|t| - 1] == s[|s| - 1];
      assert (forall i | 0 <= i < |s| :: IsDashAlphaNum(s[i])) <==>
             IsDashAlphaNum(s[0]) && forall i | 0 <= i < |t| :: IsDashAlphaNum(t[i]) by {
        assert forall i | 0 < i < |s| :: s[i] == t[i - 1];
      }
    }
  }

  lemma {:induction false} ScanUnfolds(s: string, last: Last, dots: bool)
    ensures var i := FirstDot(s);
            Scan(s, last, dots) <==>
              Completes(s[..i], last) && (i == |s| || (dots && Scan(s[i + 1..], LabelStart, dots)))
    decreases |s|
  {
    var i := FirstDot(s);
    CompletesUnfolds(s[..i], last);
    if s != "" && s[0] != '.' {
      assert FirstDot(s[1..]) == i - 1;
      assert s[..i][1..] == s[1..][..i - 1];
      if i < |s| { assert s[1..][i..] == s[i + 1..]; }
      ScanUnfolds(s[1..], AlphaNumChar, dots);
      ScanUnfolds(s[1..], DashChar, dots);
    }
  }

  /** One pass over the string decides both patterns. */
  lemma {:induction false} ScannerDecides(s: string)
    ensures Scan(s, LabelStart, true) <==> Matches(SUBDOMAIN, s)
    ensures Scan(s, LabelStart, false) <==> Matches(LABEL, s)
    decreases |s|
  {
    var i := FirstDot(s);
    ScanUnfolds(s, LabelStart, true);
    ScanUnfolds(s, LabelStart, false);
    SubdomainUnfolds(s);
    LabelPattern(s[..i]);
    LabelPattern(s);
    if i < |s| {
      ScannerDecides(s[i + 1..]);
      assert !IsDashAlphaNum(s[i]);
    } else {
      assert s[..i] == s;
    }
  }

  // ----- Names character by character -----

  /** The characters of names: lower-case letters, digits, dashes, and dots where they are allowed. */
  predicate NameChar(c: char, dots: bool) {
    'a' <= c <= 'z' || '0' <= c <= '9' || c == '-' || (dots && c == '.')
  }

  /** A letter or digit, where a part of a name starts or ends. */
  predicate EndChar(c: char) { 'a' <= c <= 'z' || '0' <= c <= '9' }

  /** A dot has a letter or digit on either side. */
  predicate MayFollow(c: char, d: char) { (c == '.' ==> EndChar(d)) && (d == '.' ==> EndChar(c)) }

  predicate AllowedChars(s: string, dots: bool) { forall i | 0 <= i < |s| :: NameChar(s[i], dots) }

  predicate AllowedPairs(s: string) { forall i | 0 <= i < |s| - 1 :: MayFollow(s[i], s[i + 1]) }

  /** Every character is allowed, and the first, the last, and those beside a dot are letters or digits. */
  predicate WellSpelled(s: string, dots: bool) {
    s != "" && EndChar(s[0]) && EndChar(s[|s| - 1]) && AllowedChars(s, dots) && AllowedPairs(s)
  }

  /** The same of the rest of a name, when `last` has been read. */
  predicate RestWellSpelled(s: string, last: Last, dots: bool) {
    if s == "" then last == AlphaNumChar
    else
      && EndChar(s[|s| - 1]) && (last == LabelStart ==> EndChar(s[0])) && (last == DashChar ==> s[0] != '.')
      && AllowedChars(s, dots) && AllowedPairs(s)
  }

  lemma {:induction false} ScanIsWellSpelled(s: string, last: Last, dots: bool)
    ensures Scan(s, last, dots) <==> RestWellSpelled(s, last, dots)
    decreases |s|
  {
    if s != "" {
      var next := if s[0] == '.' then LabelStart else if s[0] == '-' then DashChar else AlphaNumChar;
      ScanIsWellSpelled(s[1..], next, dots);
      AllowedUnfolds(s, dots);
    }
  }

  lemma AllowedUnfolds(s: string, dots: bool)
    requires s != ""
    ensures AllowedChars(s, dots) <==> NameChar(s[0], dots) && AllowedChars(s[1..], dots)
    ensures AllowedPairs(s) <==> (|s| > 1 ==> MayFollow(s[0], s[1])) && AllowedPairs(s[1..])
  {
    CharsUnfold(s, dots);
    PairsUnfold(s);
  }

  lemma CharsUnfold(s: string, dots: bool)
    requires s != ""
    ensures AllowedChars(s, dots) <==> NameChar(s[0], dots) && AllowedChars(s[1..], dots)
  {
    assert forall i | 0 < i < |s| :: s[i] == s[1..][i - 1];
  }

  lemma PairsUnfold(s: string)
    requires s != ""
    ensures AllowedPairs(s) <==> (|s| > 1 ==> MayFollow(s[0], s[1])) && AllowedPairs(s[1..])
  {
    var t := s[1..];
    if (|s| > 1 ==> MayFollow(s[0], s[1])) && AllowedPairs(t) {
      forall i | 0 <= i < |s| - 1 ensures MayFollow(s[i], s[i + 1]) {
        if i > 0 { assert MayFollow(t[i - 1], t[i - 1 + 1]); }
      }
    }
    if AllowedPairs(s) {
      forall i | 0 <= i < |t| - 1 ensures MayFollow(t[i], t[i + 1]) {
        assert MayFollow(s[i + 1], s[i + 1 + 1]);
      }
    }
  }

  lemma StartWellSpelled(s: string, dots: bool)
    ensures RestWellSpelled(s, LabelStart, dots) <==> WellSpelled(s, dots)
  {}

  /** Which strings are names and namespaces: so none with an upper-case letter, an underscore, a space or a
      slash, none that starts or ends with a dash or a dot, and every other one that is short enough. */
  lemma NamesAreWellSpelled(s: string)
    ensures ValidateName(s) == None <==> |s| <= 253 && WellSpelled(s, true)
    ensures ValidateNamespace(s) == None <==> s == "" || (|s| <= 63 && WellSpelled(s, false))
  {
    ScannerDecides(s);
    ScanIsWellSpelled(s, LabelStart, true);
    ScanIsWellSpelled(s, LabelStart, false);
    StartWellSpelled(s, true);
    StartWellSpelled(s, false);
  }

  /** A missing name is told apart from a wrong one. */
  lemma NameErrors(s: string)
    ensures ValidateName(s) == Some(NameRequired) <==> s == ""
    ensures ValidateName(s) == Some(InvalidName) <==> s != "" && !(|s| <= 253 && WellSpelled(s, true))
    ensures ValidateNamespace(s) == None || ValidateNamespace(s) == Some(InvalidNamespace)
  {
    NamesAreWellSpelled(s);
  }

  lemma OrdinaryNames()
    ensures ValidateName("web-0") == None && ValidateName("a.b") == None
    ensures ValidateName("A") != None && ValidateName("_") != None && ValidateName("/") != None
  {
    NamesAreWellSpelled("web-0");
    NamesAreWellSpelled("a.b");
    NamesAreWellSpelled("A");
    NamesAreWellSpelled("_");
    NamesAreWellSpelled("/");
    assert !EndChar("A"[0]) && !EndChar("_"[0]) && !EndChar("/"[0]);
  }

  /** An accepted non-empty namespace is an accepted name; an accepted name is an accepted namespace
      exactly when it has no dot and at most 63 characters. */
  lemma NamespaceIffShortDotlessName(s: string)
    requires s != ""
    ensures ValidateNamespace(s) == None <==> ValidateName(s) == None && '.' !in s && |s| <= 63
  {
    var i := FirstDot(s);
    LabelPattern(s);
    SubdomainUnfolds(s);
    if i == |s| {
      assert s[..i] == s;
      assert '.' !in s;
    } else {
      assert s[i] == '.' && !IsDashAlphaNum(s[i]);
    }
  }

  /** The name check bounds the whole name but not its parts: a part longer than the 63 characters of
      section 2.3.4 of RFC 1035 is accepted. */
  lemma LongPartAccepted()
    ensures ValidateName(seq(64, _ => 'a')) == None && ValidateNamespace(seq(64, _ => 'a')) == Some(InvalidNamespace)
  {
    var s := seq(64, _ => 'a');
    LabelPattern(s);
    SubdomainUnfolds(s);
    assert FirstDot(s) == |s| && s[..|s|] == s;
  }
}
