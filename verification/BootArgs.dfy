/** The xepci= boot argument: what a text means, and the in-place scanner that computes it. */
module BootArgs {
  import opened Hardware

  datatype Flags = Flags(verbose: bool, disableForcewake: bool, disableCommandStream: bool, strictSafe: bool)

  const NO_FLAGS := Flags(false, false, false, false)

  function Union(a: Flags, b: Flags): Flags {
    Flags(a.verbose || b.verbose, a.disableForcewake || b.disableForcewake,
          a.disableCommandStream || b.disableCommandStream, a.strictSafe || b.strictSafe)
  }

  /** No flag of `a` is lost in `b`. */
  predicate Below(a: Flags, b: Flags) {
    Union(a, b) == b
  }

  // ---------------------------------------------------------------- text

  function ToLower(c: char): char {
    if 'A' <= c <= 'Z' then (c as int + 32) as char else c
  }

  function Lower(s: string): (r: string)
    ensures |r| == |s|
  {
    seq(|s|, i requires 0 <= i < |s| => ToLower(s[i]))
  }

  predicate Blank(c: char) {
    c == ' ' || c == '\t'
  }

  function TrimLeft(s: string): string {
    if s != "" && Blank(s[0]) then TrimLeft(s[1..]) else s
  }

  /** The C string at position p of a buffer ends at the NUL at position end. */
  predicate Terminated(a: string, p: nat, end: nat) {
    p <= end < |a| && a[end] == '\0' && '\0' !in a[p..end]
  }

  /** The comma-separated fields of a text; the empty text is one empty field. */
  function Split(s: string): (fields: seq<string>)
    ensures fields != []
  {
    if s == "" then [""]
    else
      var rest := Split(s[1..]);
      if s[0] == ',' then [""] + rest else [[s[0]] + rest[0]] + rest[1..]
  }

  function Token(field: string): string {
    Lower(TrimLeft(field))
  }

  // ---------------------------------------------------------------- meaning

  function KeywordFlags(token: string): Flags {
    if token == "verbose" then NO_FLAGS.(verbose := true)
    else if token == "noforcewake" then NO_FLAGS.(disableForcewake := true)
    else if token == "nocs" then NO_FLAGS.(disableCommandStream := true)
    else if token == "strictsafe" then Flags(false, true, true, true)
    else NO_FLAGS
  }

  function FieldsFlags(fields: seq<string>): Flags {
    if fields == [] then NO_FLAGS
    else Union(KeywordFlags(Token(fields[0])), FieldsFlags(fields[1..]))
  }

  function TextFlags(text: string): Flags {
    FieldsFlags(Split(text))
  }

  /** s[i..j] is a maximal comma-free stretch of s. */
  ghost predicate IsField(s: string, i: nat, j: nat) {
    && i <= j <= |s|
    && (i == 0 || s[i - 1] == ',')
    && (j == |s| || s[j] == ',')
    && ',' !in s[i..j]
  }

  /** Lower-case letters only. */
  predicate Letters(keyword: string) {
    forall i :: 0 <= i < |keyword| ==> 'a' <= keyword[i] <= 'z'
  }

  /** The two characters are the same, or the first is 32 codes below the second. */
  predicate SameLetter(c: char, letter: char) {
    c == letter || c as int + 32 == letter as int
  }

  /** From position k on the field is the keyword in either case, and before that it is blank. */
  predicate SpellsAt(field: string, k: nat, keyword: string) {
    && k + |keyword| == |field|
    && (forall i :: 0 <= i < k ==> field[i] == ' ' || field[i] == '\t')
    && (forall i :: 0 <= i < |keyword| ==> SameLetter(field[k + i], keyword[i]))
  }

  /** The field is the keyword in either case after any number of blanks and tabs. */
  ghost predicate Spells(field: string, keyword: string) {
    exists k: nat :: SpellsAt(field, k, keyword)
  }

  /** Some field of s is the keyword, up to leading blanks and letter case. */
  ghost predicate Mentions(s: string, keyword: string) {
    exists i: nat, j: nat :: IsField(s, i, j) && Spells(s[i..j], keyword)
  }

  lemma LowerSpells(s: string, keyword: string)
    requires Letters(keyword)
    ensures Lower(s) == keyword <==> SpellsAt(s, 0, keyword)
  {
    if SpellsAt(s, 0, keyword) {
      forall i | 0 <= i < |s|
        ensures Lower(s)[i] == keyword[i]
      {
        assert SameLetter(s[0 + i], keyword[i]);
      }
    }
  }

  lemma SpellsTail(field: string, k: nat, keyword: string)
    requires 0 < k && field != "" && Blank(field[0])
    ensures SpellsAt(field, k, keyword) <==> SpellsAt(field[1..], k - 1, keyword)
  {
    var tail := field[1..];
    assert forall i :: 0 < i < |field| ==> field[i] == tail[i - 1];
    assert forall i :: 0 <= i < |tail| ==> tail[i] == field[i + 1];
    if k + |keyword| == |field| {
      forall i | 0 <= i < |keyword|
        ensures SameLetter(field[k + i], keyword[i]) <==> SameLetter(tail[k - 1 + i], keyword[i])
      {
        assert tail[k - 1 + i] == field[k + i];
      }
    }
  }

  /** A field's token is the keyword exactly if the field spells it. */
  lemma {:induction false} TokenSpells(field: string, keyword: string)
    requires Letters(keyword)
    ensures Token(field) == keyword <==> Spells(field, keyword)
  {
    if field != "" && Blank(field[0]) {
      TokenSpells(field[1..], keyword);
      if k: nat :| SpellsAt(field[1..], k, keyword) {
        SpellsTail(field, k + 1, keyword);
      }
      if k: nat :| SpellsAt(field, k, keyword) {
        assert keyword != "" ==> !SameLetter(field[0], keyword[0]);
        assert k > 0;
        SpellsTail(field, k, keyword);
      }
    } else {
      LowerSpells(field, keyword);
      if k: nat :| SpellsAt(field, k, keyword) {
        assert k == 0;
      }
    }
  }

  /** Splitting is a homomorphism from comma-joined texts to concatenated lists. */
  lemma {:induction false} SplitJoined(a: string, b: string)
    ensures Split(a + "," + b) == Split(a) + Split(b)
  {
    var s := a + "," + b;
    if a == "" {
      assert s[1..] == b;
    } else {
      assert s[1..] == a[1..] + "," + b;
      SplitJoined(a[1..], b);
    }
  }

  lemma {:induction false} SplitCommaFree(s: string)
    requires ',' !in s
    ensures Split(s) == [s]
  {
    if s != "" {
      SplitCommaFree(s[1..]);
      assert s == [s[0]] + s[1..];
    }
  }

  lemma {:induction false} FieldsFlagsAppend(a: seq<string>, b: seq<string>)
    ensures FieldsFlags(a + b) == Union(FieldsFlags(a), FieldsFlags(b))
  {
    if a == [] {
      assert a + b == b;
    } else {
      assert (a + b)[1..] == a[1..] + b;
      FieldsFlagsAppend(a[1..], b);
    }
  }

  /** Joining two argument texts with a comma unites their flags. */
  lemma JoinedTextFlags(a: string, b: string)
    ensures TextFlags(a + "," + b) == Union(TextFlags(a), TextFlags(b))
  {
    SplitJoined(a, b);
    FieldsFlagsAppend(Split(a), Split(b));
  }

  ghost predicate HasKeyword(fields: seq<string>, keyword: string) {
    exists f :: f in fields && Spells(f, keyword)
  }

  lemma HasKeywordStep(fields: seq<string>, keyword: string)
    requires fields != [] && Letters(keyword)
    ensures HasKeyword(fields, keyword) <==> Token(fields[0]) == keyword || HasKeyword(fields[1..], keyword)
  {
    TokenSpells(fields[0], keyword);
    assert forall f :: f in fields <==> f == fields[0] || f in fields[1..];
  }

  lemma {:induction false} FieldsFlagsMembers(fields: seq<string>)
    ensures FieldsFlags(fields) ==
      Flags(HasKeyword(fields, "verbose"),
            HasKeyword(fields, "noforcewake") || HasKeyword(fields, "strictsafe"),
            HasKeyword(fields, "nocs") || HasKeyword(fields, "strictsafe"),
            HasKeyword(fields, "strictsafe"))
  {
    if fields != [] {
      FieldsFlagsMembers(fields[1..]);
      HasKeywordStep(fields, "verbose");
      HasKeywordStep(fields, "noforcewake");
      HasKeywordStep(fields, "nocs");
      HasKeywordStep(fields, "strictsafe");
    }
  }

  /** The same words are spelled by fields of either list. */
  ghost predicate SameWords(a: seq<string>, b: seq<string>) {
    forall word :: word != "" && Letters(word) ==> (HasKeyword(a, word) <==> HasKeyword(b, word))
  }

  lemma SameKeyword(a: seq<string>, b: seq<string>, word: string)
    requires SameWords(a, b) && word != "" && Letters(word)
    ensures HasKeyword(a, word) <==> HasKeyword(b, word)
  {
  }

  /** Order, repetition, letter case and blank fields never matter: only the words spelled do. */
  lemma SameFieldsSameFlags(a: string, b: string)
    requires SameWords(Split(a), Split(b))
    ensures TextFlags(a) == TextFlags(b)
  {
    SameKeyword(Split(a), Split(b), "verbose");
    SameKeyword(Split(a), Split(b), "noforcewake");
    SameKeyword(Split(a), Split(b), "nocs");
    SameKeyword(Split(a), Split(b), "strictsafe");
    FieldsFlagsMembers(Split(a));
    FieldsFlagsMembers(Split(b));
  }

  /** Every maximal comma-free stretch is one of the fields. */
  lemma FieldAppears(s: string, i: nat, j: nat)
    requires IsField(s, i, j)
    ensures s[i..j] in Split(s)
  {
    SplitCommaFree(s[i..j]);
    if j < |s| {
      assert s[i..] == s[i..j] + "," + s[j + 1..];
      SplitJoined(s[i..j], s[j + 1..]);
    } else {
      assert s[i..] == s[i..j];
    }
    assert s[i..j] in Split(s[i..]);
    if i > 0 {
      assert s == s[..i - 1] + "," + s[i..];
      SplitJoined(s[..i - 1], s[i..]);
    } else {
      assert s[i..] == s;
    }
  }

  lemma FieldShift(s: string, k: nat, i: nat, j: nat)
    requires 0 < k <= |s| && s[k - 1] == ',' && IsField(s[k..], i, j)
    ensures IsField(s, i + k, j + k) && s[i + k..j + k] == s[k..][i..j]
  {
    assert s[i + k..j + k] == s[k..][i..j];
    assert i > 0 ==> s[i + k - 1] == s[k..][i - 1];
  }

  lemma HeadOrRest(s: string, k: nat, f: string)
    requires k < |s| && s[k] == ',' && ',' !in s[..k] && f in Split(s)
    ensures f == s[..k] || f in Split(s[k + 1..])
  {
    var head, rest := s[..k], s[k + 1..];
    SplitCommaFree(head);
    assert Split(s) == [head] + Split(rest) by {
      assert s == head + "," + rest;
      SplitJoined(head, rest);
    }
  }

  lemma {:induction false} FirstComma(s: string) returns (k: nat)
    ensures k <= |s| && ',' !in s[..k] && (k < |s| ==> s[k] == ',')
  {
    k := 0;
    while k < |s| && s[k] != ','
      invariant k <= |s| && ',' !in s[..k]
    {
      k := k + 1;
    }
  }

  /** Every field is a maximal comma-free stretch of the text. */
  lemma {:induction false} SplitFieldAt(s: string, f: string) returns (i: nat, j: nat)
    requires f in Split(s)
    ensures IsField(s, i, j) && s[i..j] == f
    decreases |s|
  {
    var k := FirstComma(s);
    if k == |s| {
      assert s[..k] == s;
      SplitCommaFree(s);
    } else {
      HeadOrRest(s, k, f);
    }
    if f == s[..k] {
      i, j := 0, k;
    } else {
      i, j := SplitFieldAt(s[k + 1..], f);
      FieldShift(s, k + 1, i, j);
      i, j := i + k + 1, j + k + 1;
    }
  }

  lemma MentionsIsMembership(s: string, keyword: string)
    ensures Mentions(s, keyword) <==> HasKeyword(Split(s), keyword)
  {
    if Mentions(s, keyword) {
      var i: nat, j: nat :| IsField(s, i, j) && Spells(s[i..j], keyword);
      FieldAppears(s, i, j);
    }
    if f :| f in Split(s) && Spells(f, keyword) {
      var i, j := SplitFieldAt(s, f);
      assert IsField(s, i, j) && Spells(s[i..j], keyword);
    }
  }

  /** Each flag is set exactly when the text mentions one of the keywords that imply it. */
  lemma TextFlagsMeaning(s: string)
    ensures TextFlags(s) ==
      Flags(Mentions(s, "verbose"),
            Mentions(s, "noforcewake") || Mentions(s, "strictsafe"),
            Mentions(s, "nocs") || Mentions(s, "strictsafe"),
            Mentions(s, "strictsafe"))
  {
    FieldsFlagsMembers(Split(s));
    MentionsIsMembership(s, "verbose");
    MentionsIsMembership(s, "noforcewake");
    MentionsIsMembership(s, "nocs");
    MentionsIsMembership(s, "strictsafe");
  }

  lemma {:induction false} TrimLeftLast(s: string, c: char)
    ensures var r := TrimLeft(s + [c]); r == "" || r[|r| - 1] == c
  {
    var all := s + [c];
    if s != "" && Blank(s[0]) {
      assert all[1..] == s[1..] + [c];
      TrimLeftLast(s[1..], c);
    } else if s == "" {
      assert all[1..] == "";
    }
  }

  /** Fields are trimmed on the left only: a blank before the comma hides any keyword. */
  lemma TrailingBlankHidesKeyword(s: string, c: char)
    requires Blank(c)
    ensures KeywordFlags(Token(s + [c])) == NO_FLAGS
  {
    TrimLeftLast(s, c);
    var token := Token(s + [c]);
    assert token == "" || token[|token| - 1] == c;
    assert "verbose"[6] == 'e' && "noforcewake"[10] == 'e' && "nocs"[3] == 's' && "strictsafe"[9] == 'e';
  }

  function TrimRight(s: string): string {
    if s != "" && Blank(s[|s| - 1]) then TrimRight(s[..|s| - 1]) else s
  }

  /** What trimming on both sides, as announced by the source's comment, would make of a field. */
  function FullToken(field: string): string {
    Lower(TrimRight(TrimLeft(field)))
  }

  /** The scanner takes the field for the same keyword as full trimming would. */
  predicate TrimsFully(field: string) {
    KeywordFlags(Token(field)) == KeywordFlags(FullToken(field))
  }

  predicate EndsInBlank(field: string) {
    field != "" && Blank(field[|field| - 1])
  }

  predicate IsKeyword(token: string) {
    KeywordFlags(token) != NO_FLAGS
  }

  lemma CleanEnd(field: string)
    requires !EndsInBlank(field)
    ensures Token(field) == FullToken(field)
  {
    if field != "" {
      var n := |field| - 1;
      assert field == field[..n] + [field[n]];
      TrimLeftLast(field[..n], field[n]);
    }
  }

  lemma BlankEnd(field: string)
    requires EndsInBlank(field)
    ensures !IsKeyword(Token(field))
  {
    var n := |field| - 1;
    assert field == field[..n] + [field[n]];
    TrailingBlankHidesKeyword(field[..n], field[n]);
  }

  /** Trimming on the left only is as good as trimming both sides exactly for fields that do not end in a blank
      and for fields that are no keyword anyway. */
  lemma TrimsFullyIff(field: string)
    ensures TrimsFully(field) <==> !EndsInBlank(field) || !IsKeyword(FullToken(field))
  {
    if EndsInBlank(field) {
      BlankEnd(field);
    } else {
      CleanEnd(field);
    }
  }

  lemma PlainToken(s: string)
    requires s != "" && !Blank(s[0]) && forall i :: 0 <= i < |s| ==> ToLower(s[i]) == s[i]
    ensures Token(s) == s
  {
  }

  lemma BlankAfterNocs()
    ensures FullToken("nocs ") == "nocs" && !TrimsFully("nocs ")
  {
    var field := "nocs ";
    assert TrimLeft(field) == field;
    assert field[..4] == "nocs" && TrimRight("nocs") == "nocs";
    PlainToken("nocs");
    TrimsFullyIff(field);
  }

  lemma TwoFields(a: string, b: string)
    requires ',' !in a && ',' !in b
    ensures TextFlags(a + "," + b) == Union(KeywordFlags(Token(a)), KeywordFlags(Token(b)))
  {
    JoinedTextFlags(a, b);
    FieldTextFlags(a);
    FieldTextFlags(b);
  }

  /** In the text "nocs ,verbose" the blank hides nocs, which full trimming would find. */
  lemma HiddenNocs()
    ensures TextFlags("nocs " + "," + "verbose") == NO_FLAGS.(verbose := true)
    ensures !TrimsFully("nocs ") && KeywordFlags(FullToken("nocs ")).disableCommandStream
  {
    TwoFields("nocs ", "verbose");
    BlankEnd("nocs ");
    PlainToken("verbose");
    BlankAfterNocs();
  }

  // ---------------------------------------------------------------- scanner

  const TOKEN_SIZE: nat := 64

  function Truncated(token: string): string {
    if |token| < TOKEN_SIZE then token else token[..TOKEN_SIZE - 1]
  }

  /** Cutting a token to 63 characters neither creates nor hides a keyword. */
  lemma TruncationIsHarmless(token: string)
    ensures KeywordFlags(Truncated(token)) == KeywordFlags(token)
  {
    assert |"verbose"| == 7 && |"noforcewake"| == 11 && |"nocs"| == 4 && |"strictsafe"| == 10;
  }

  lemma FieldTextFlags(field: string)
    requires ',' !in field
    ensures TextFlags(field) == KeywordFlags(Token(field))
  {
    SplitCommaFree(field);
    assert FieldsFlags([field][1..]) == NO_FLAGS;
  }

  /** strchr: the first `c` of the C string at p, if it has one. */
  method StrChr(a: array<char>, p: nat, c: char, ghost end: nat) returns (found: Option<nat>)
    requires Terminated(a[..], p, end) && c != '\0'
    ensures match found
      case Some(k) => p <= k < end && a[k] == c && c !in a[p..k]
      case None => c !in a[p..end]
  {
    var k := p;
    while a[k] != '\0'
      invariant p <= k <= end
      invariant c !in a[p..k]
      decreases end - k
    {
      if a[k] == c { return Some(k); }
      k := k + 1;
    }
    return None;
  }

  /** The lower-cased and length-limited copy of the C string at p. */
  method CopyLower(buf: array<char>, p: nat, ghost end: nat) returns (copy: string)
    requires Terminated(buf[..], p, end)
    ensures copy == Truncated(Lower(buf[p..end]))
  {
    ghost var lower := Lower(buf[p..end]);
    var token := new char[TOKEN_SIZE](_ => '\0');
    var i := 0;
    while buf[p + i] != '\0' && i < TOKEN_SIZE - 1
      invariant 0 <= i <= TOKEN_SIZE - 1 && p + i <= end
      invariant token[..i] == lower[..i]
      decreases TOKEN_SIZE - i
    {
      token[i] := ToLower(buf[p + i]);
      i := i + 1;
    }
    token[i] := '\0';
    return token[..i];
  }

  /** The blank-trimmed, lower-cased and length-limited copy of the C string at start. */
  method CopyToken(buf: array<char>, start: nat, ghost end: nat) returns (copy: string)
    requires Terminated(buf[..], start, end)
    ensures copy == Truncated(Token(buf[start..end]))
    ensures forall word :: Letters(word) && |word| < 63 ==> (copy == word <==> Spells(buf[start..end], word))
  {
    var p := start;
    while buf[p] == ' ' || buf[p] == '\t'
      invariant start <= p <= end
      invariant TrimLeft(buf[start..end]) == TrimLeft(buf[p..end])
      decreases end - p
    {
      assert buf[p..end][1..] == buf[p + 1..end];
      p := p + 1;
    }
    assert TrimLeft(buf[p..end]) == buf[p..end];
    copy := CopyLower(buf, p, end);
    forall word | Letters(word) && |word| < 63
      ensures copy == word <==> Spells(buf[start..end], word)
    {
      TokenSpells(buf[start..end], word);
    }
  }

  /** A buffer whose first p characters have had their commas overwritten. */
  function Cut(s: string, p: nat): (r: string)
    ensures |r| == |s|
  {
    seq(|s|, i requires 0 <= i < |s| => if i < p && s[i] == ',' then '\0' else s[i])
  }

  lemma CutNext(s: string, p: nat, q: nat, end: nat)
    requires p < q <= end < |s| && s[q - 1] == ',' && ',' !in s[p..q - 1]
    ensures Cut(s, p)[q - 1 := '\0'] == Cut(s, q)
  {
    assert forall i :: p <= i < q - 1 ==> s[i] == s[p..q - 1][i - p];
  }

  lemma CutLast(s: string, p: nat, end: nat)
    requires p <= end <= |s| && ',' !in s[p..end]
    ensures Cut(s, p) == Cut(s, end)
  {
    assert forall i :: p <= i < end ==> s[i] == s[p..end][i - p];
  }

  lemma CutTail(s: string, p: nat, end: nat)
    requires p <= end < |s| && Terminated(s, 0, end)
    ensures Terminated(Cut(s, p), p, end) && forall q :: p <= q <= end ==> Cut(s, p)[p..q] == s[p..q]
  {
    assert forall i :: p <= i < end ==> s[i] == s[0..end][i];
  }

  lemma TextFlagsNext(s: string, p: nat, q: nat, end: nat)
    requires p < q <= end <= |s| && s[q - 1] == ','
    ensures TextFlags(s[p..end]) == Union(TextFlags(s[p..q - 1]), TextFlags(s[q..end]))
  {
    assert s[p..end] == s[p..q - 1] + "," + s[q..end];
    JoinedTextFlags(s[p..q - 1], s[q..end]);
  }

  /** The global flag record. */
  class BootState {
    var verbose: bool
    var disableForcewake: bool
    var disableCommandStream: bool
    var strictSafe: bool

    ghost function Value(): Flags
      reads this
    {
      Flags(verbose, disableForcewake, disableCommandStream, strictSafe)
    }

    constructor ()
      ensures Value() == NO_FLAGS
    {
      verbose, disableForcewake, disableCommandStream, strictSafe := false, false, false, false;
    }

    method ApplyToken(token: string)
      modifies this
      ensures Value() == Union(old(Value()), KeywordFlags(token))
    {
      if token == "verbose" {
        verbose := true;
      } else if token == "noforcewake" {
        disableForcewake := true;
      } else if token == "nocs" {
        disableCommandStream := true;
      } else if token == "strictsafe" {
        strictSafe := true;
        disableForcewake := true;
        disableCommandStream := true;
      }
    }

    /** Takes one field: cuts it off at its comma, applies it, and says where the next one starts. */
    method TakeField(buf: array<char>, p: nat, ghost end: nat) returns (next: Option<nat>)
      requires Terminated(buf[..], p, end)
      modifies this, buf
      ensures match next
        case Some(q) =>
          && p < q <= end && old(buf[q - 1]) == ',' && ',' !in old(buf[p..q - 1])
          && buf[..] == old(buf[..])[q - 1 := '\0']
          && Value() == Union(old(Value()), TextFlags(old(buf[p..q - 1])))
        case None =>
          && ',' !in old(buf[p..end]) && buf[..] == old(buf[..])
          && Value() == Union(old(Value()), TextFlags(old(buf[p..end])))
    {
      var comma := StrChr(buf, p, ',', end);
      ghost var stop := if comma.Some? then comma.value else end;
      ghost var field := buf[p..stop];
      if comma.Some? { buf[comma.value] := '\0'; }
      assert buf[p..stop] == field;
      var token := CopyToken(buf, p, stop);
      TruncationIsHarmless(Token(field));
      FieldTextFlags(field);
      ApplyToken(token);
      return match comma case Some(k) => Some(k + 1) case None => None;
    }

    /** Scans the buffer in place: adds the flags of the text and overwrites exactly its commas. */
    method Parse(present: bool, buf: array<char>, ghost end: nat)
      requires Terminated(buf[..], 0, end)
      modifies this, buf
      ensures Value() == if present then Union(old(Value()), TextFlags(old(buf[0..end]))) else old(Value())
      ensures buf[..] == if present then Cut(old(buf[..]), end) else old(buf[..])
    {
      if !present { return; }
      ghost var s := buf[..];
      var p := 0;
      assert s == Cut(s, p);
      while buf[p] != '\0'
        invariant 0 <= p <= end && buf[..] == Cut(s, p) && Terminated(buf[..], p, end)
        invariant Union(old(Value()), TextFlags(s[0..end])) == Union(Value(), TextFlags(s[p..end]))
        decreases end - p
      {
        CutTail(s, p, end);
        var next := TakeField(buf, p, end);
        if next.None? {
          CutLast(s, p, end);
          return;
        }
        assert s[p..next.value - 1] == Cut(s, p)[p..next.value - 1];
        TextFlagsNext(s, p, next.value, end);
        CutNext(s, p, next.value, end);
        p := next.value;
        CutTail(s, p, end);
      }
      assert p == end && s[p..end] == "";
      FieldTextFlags("");
    }
  }
}
