/**
 * Listing fingerprints and the duplicate check
 * (apps/backend/src/services/listing-fraud.service.ts).
 */
module ListingFraud {
  import opened Prelude
  import Paging
  import Text

  datatype Listing = Listing(
    id: Option<string>,
    eventName: string,
    eventDate: Option<string>,
    section: Option<string>,
    row: Option<string>,
    seat: Option<string>,
    sellerId: string,
    status: Option<string>)

  // ---------------------------------------------------------------- normalising

  /** `replace(/\s+/g, " ")` */
  function Collapse(s: string): string {
    if s == "" then ""
    else if !Text.IsSpace(s[0]) then [s[0]] + Collapse(s[1..])
    else if |s| > 1 && Text.IsSpace(s[1]) then Collapse(s[1..])
    else " " + Collapse(s[1..])
  }

  /** `normalize` */
  function Normalize(value: Option<string>): string {
    Collapse(Text.Lower(Text.Trim(if value.Some? then value.value else "")))
  }

  predicate IsSeatChar(c: char) {
    'a' <= c <= 'z' || '0' <= c <= '9' || c == '-'
  }

  /** `replace(/[^a-z0-9-]/g, "")` */
  function KeepSeatChars(s: string): string {
    if s == "" then "" else (if IsSeatChar(s[0]) then [s[0]] else "") + KeepSeatChars(s[1..])
  }

  /** `normalizeSeat` */
  function NormalizeSeat(value: Option<string>): string {
    KeepSeatChars(Normalize(value))
  }

  predicate NoUpper(s: string) {
    forall i :: 0 <= i < |s| ==> !('A' <= s[i] <= 'Z')
  }

  predicate SingleSpaces(s: string) {
    forall i :: 0 <= i < |s| && Text.IsSpace(s[i]) ==> s[i] == ' ' && (i > 0 ==> s[i - 1] != ' ')
  }

  predicate Trimmed(s: string) {
    s == "" || (!Text.IsSpace(s[0]) && !Text.IsSpace(s[|s| - 1]))
  }

  /** The shape of a normalised text. */
  predicate IsNormal(s: string) {
    NoUpper(s) && SingleSpaces(s) && Trimmed(s)
  }

  predicate IsSeat(s: string) {
    forall i :: 0 <= i < |s| ==> IsSeatChar(s[i])
  }

  lemma {:induction false} TrimLeftIs(s: string)
    ensures var r := Text.TrimLeft(s); r == "" || !Text.IsSpace(r[0])
  {
    if s != "" && Text.IsSpace(s[0]) { TrimLeftIs(s[1..]); }
  }

  lemma {:induction false} TrimRightIs(s: string)
    ensures var r := Text.TrimRight(s); |r| <= |s| && r == s[..|r|] && (r == "" || !Text.IsSpace(r[|r| - 1]))
  {
    if s != "" && Text.IsSpace(s[|s| - 1]) { TrimRightIs(s[..|s| - 1]); }
  }

  lemma {:induction false} TrimIs(s: string)
    ensures Trimmed(Text.Trim(s))
    ensures Trimmed(s) ==> Text.Trim(s) == s
  {
    TrimLeftIs(s);
    TrimRightIs(Text.TrimLeft(s));
  }

  lemma {:induction false} LowerIs(s: string)
    ensures NoUpper(Text.Lower(s))
    ensures Trimmed(s) ==> Trimmed(Text.Lower(s))
    ensures NoUpper(s) ==> Text.Lower(s) == s
  {}

  lemma {:induction false} CollapseIs(s: string)
    ensures var r := Collapse(s);
      && SingleSpaces(r) && (NoUpper(s) ==> NoUpper(r))
      && (r == "" <==> s == "")
      && (s != "" ==> Text.IsSpace(r[0]) == Text.IsSpace(s[0]) && Text.IsSpace(r[|r| - 1]) == Text.IsSpace(s[|s| - 1]))
  {
    if s != "" {
      CollapseIs(s[1..]);
      assert NoUpper(s) ==> NoUpper(s[1..]);
    }
  }

  lemma {:induction false} CollapseFixed(s: string)
    requires SingleSpaces(s)
    ensures Collapse(s) == s
  {
    if s != "" {
      assert |s| > 1 && Text.IsSpace(s[1]) ==> s[1] == ' ' && s[0] != ' ';
      assert SingleSpaces(s[1..]) by {
        forall i | 0 <= i < |s| - 1 && Text.IsSpace(s[1..][i]) ensures s[1..][i] == ' ' && (i > 0 ==> s[1..][i - 1] != ' ') {
          assert s[1..][i] == s[i + 1];
        }
      }
      CollapseFixed(s[1..]);
    }
  }

  /** Normalising gives a normal text. */
  lemma {:induction false} NormalizeIs(value: Option<string>)
    ensures IsNormal(Normalize(value))
  {
    var s := if value.Some? then value.value else "";
    TrimIs(s);
    LowerIs(Text.Trim(s));
    CollapseIs(Text.Lower(Text.Trim(s)));
  }

  /** Normalising leaves a normal text alone. */
  lemma {:induction false} NormalStays(s: string)
    requires IsNormal(s)
    ensures Normalize(Some(s)) == s
  {
    TrimIs(s);
    LowerIs(s);
    CollapseFixed(s);
  }

  lemma {:induction false} KeepIs(s: string)
    ensures IsSeat(KeepSeatChars(s))
    ensures IsSeat(s) ==> KeepSeatChars(s) == s
  {
    if s != "" {
      KeepIs(s[1..]);
      assert IsSeat(s) ==> IsSeat(s[1..]);
    }
  }

  lemma {:induction false} NormalizeSeatIs(value: Option<string>)
    ensures IsSeat(NormalizeSeat(value))
    ensures value.Some? && IsSeat(value.value) ==> NormalizeSeat(value) == value.value
  {
    KeepIs(Normalize(value));
    if value.Some? && IsSeat(value.value) {
      NormalStays(value.value);
      KeepIs(value.value);
    }
  }

  /** Both normalisations are idempotent. */
  lemma {:induction false} NormalizeIdempotent(value: Option<string>)
    ensures Normalize(Some(Normalize(value))) == Normalize(value)
    ensures NormalizeSeat(Some(NormalizeSeat(value))) == NormalizeSeat(value)
  {
    NormalizeIs(value);
    NormalStays(Normalize(value));
    NormalizeSeatIs(value);
    NormalizeSeatIs(Some(NormalizeSeat(value)));
  }

  /** The words of a text: what stands between white space. */
  function Words(s: string): seq<string> {
    WordsFrom(s, "")
  }

  function WordsFrom(s: string, word: string): seq<string> {
    if s == "" then Flushed(word)
    else if Text.IsSpace(s[0]) then Flushed(word) + WordsFrom(s[1..], "")
    else WordsFrom(s[1..], word + [s[0]])
  }

  function Flushed(word: string): seq<string> {
    if word == "" then [] else [word]
  }

  function LowerWords(words: seq<string>): seq<string> {
    seq(|words|, i requires 0 <= i < |words| => Text.Lower(words[i]))
  }

  lemma {:induction false} WordsTrimLeft(s: string)
    ensures Words(Text.TrimLeft(s)) == Words(s)
  {
    if s != "" && Text.IsSpace(s[0]) { WordsTrimLeft(s[1..]); }
  }

  lemma {:induction false} WordsThenSpace(s: string, word: string, c: char)
    requires Text.IsSpace(c)
    ensures WordsFrom(s + [c], word) == WordsFrom(s, word)
  {
    if s == "" {
      assert s + [c] == [c] && [c][1..] == "";
    } else {
      assert (s + [c])[1..] == s[1..] + [c];
      WordsThenSpace(s[1..], if Text.IsSpace(s[0]) then "" else word + [s[0]], c);
    }
  }

  lemma {:induction false} WordsTrimRight(s: string)
    ensures Words(Text.TrimRight(s)) == Words(s)
  {
    if s != "" && Text.IsSpace(s[|s| - 1]) {
      var n := |s| - 1;
      WordsTrimRight(s[..n]);
      WordsThenSpace(s[..n], "", s[n]);
      assert s[..n] + [s[n]] == s;
    }
  }

  lemma {:induction false} WordsCollapse(s: string, word: string)
    ensures WordsFrom(Collapse(s), word) == WordsFrom(s, word)
  {
    if s != "" {
      if !Text.IsSpace(s[0]) {
        WordsCollapse(s[1..], word + [s[0]]);
      } else if |s| > 1 && Text.IsSpace(s[1]) {
        WordsCollapse(s[1..], word);
      } else {
        WordsCollapse(s[1..], "");
      }
    }
  }

  lemma {:induction false} WordsLower(s: string, word: string)
    ensures WordsFrom(Text.Lower(s), Text.Lower(word)) == LowerWords(WordsFrom(s, word))
  {
    if s != "" {
      assert Text.Lower(s)[1..] == Text.Lower(s[1..]);
      if Text.IsSpace(s[0]) {
        WordsLower(s[1..], "");
      } else {
        WordsLower(s[1..], word + [s[0]]);
        assert Text.Lower(word + [s[0]]) == Text.Lower(word) + [Text.LowerChar(s[0])];
      }
    }
  }

  /** Normalising keeps the words of a text, in lower case and in order, and nothing else. */
  lemma {:induction false} NormalizeKeepsWords(value: Option<string>)
    ensures Words(Normalize(value)) == LowerWords(Words(if value.Some? then value.value else ""))
  {
    var s := if value.Some? then value.value else "";
    WordsTrimLeft(s);
    WordsTrimRight(Text.TrimLeft(s));
    WordsLower(Text.Trim(s), "");
    WordsCollapse(Text.Lower(Text.Trim(s)), "");
  }

  lemma {:induction false} KeepConcat(a: string, b: string)
    ensures KeepSeatChars(a + b) == KeepSeatChars(a) + KeepSeatChars(b)
  {
    if a == "" {
      assert a + b == b;
    } else {
      var kept := if IsSeatChar(a[0]) then [a[0]] else "";
      assert (a + b)[0] == a[0] && (a + b)[1..] == a[1..] + b;
      KeepConcat(a[1..], b);
      assert kept + (KeepSeatChars(a[1..]) + KeepSeatChars(b)) == kept + KeepSeatChars(a[1..]) + KeepSeatChars(b);
    }
  }

  /** Of single characters exactly a to z, 0 to 9 and the hyphen are kept. */
  lemma {:induction false} KeepOne(c: char)
    ensures var code := c as int;
      KeepSeatChars([c]) == if 97 <= code <= 122 || 48 <= code <= 57 || code == 45 then [c] else ""
  {
    assert [c][1..] == "";
  }

  lemma {:induction false} SeatOfTrimLeft(s: string)
    ensures KeepSeatChars(Text.Lower(Text.TrimLeft(s))) == KeepSeatChars(Text.Lower(s))
  {
    if s != "" && Text.IsSpace(s[0]) {
      SeatOfTrimLeft(s[1..]);
      assert Text.Lower(s)[1..] == Text.Lower(s[1..]);
    }
  }

  lemma {:induction false} SeatOfTrimRight(s: string)
    ensures KeepSeatChars(Text.Lower(Text.TrimRight(s))) == KeepSeatChars(Text.Lower(s))
  {
    if s != "" && Text.IsSpace(s[|s| - 1]) {
      var n := |s| - 1;
      SeatOfTrimRight(s[..n]);
      assert Text.Lower(s) == Text.Lower(s[..n]) + [Text.LowerChar(s[n])];
      KeepConcat(Text.Lower(s[..n]), [Text.LowerChar(s[n])]);
      KeepOne(Text.LowerChar(s[n]));
    }
  }

  lemma {:induction false} SeatOfCollapse(s: string)
    ensures KeepSeatChars(Collapse(s)) == KeepSeatChars(s)
  {
    if s != "" { SeatOfCollapse(s[1..]); }
  }

  /** A seat is what is left of the lower-case text: letters, digits and hyphens, in order. */
  lemma {:induction false} SeatIs(value: Option<string>)
    ensures NormalizeSeat(value) == KeepSeatChars(Text.Lower(if value.Some? then value.value else ""))
  {
    var s := if value.Some? then value.value else "";
    SeatOfTrimLeft(s);
    SeatOfTrimRight(Text.TrimLeft(s));
    SeatOfCollapse(Text.Lower(Text.Trim(s)));
  }

  // ---------------------------------------------------------------- fingerprints

  function Name(l: Listing): string { Normalize(Some(l.eventName)) }
  function Date(l: Listing): string { Normalize(l.eventDate) }
  function Section(l: Listing): string { NormalizeSeat(l.section) }
  function Row(l: Listing): string { NormalizeSeat(l.row) }
  function Seat(l: Listing): string { NormalizeSeat(l.seat) }
  function Seller(l: Listing): string { Normalize(Some(l.sellerId)) }

  /** `ticketListingFingerprint` */
  function Fingerprint(l: Listing): string {
    Name(l) + "|" + Date(l) + "|" + Section(l) + "|" + Row(l) + "|" + Seat(l) + "|" + Seller(l)
  }

  /** The two listings agree on all six normalised fields. */
  predicate SameTicket(a: Listing, b: Listing) {
    && Name(a) == Name(b) && Date(a) == Date(b) && Section(a) == Section(b)
    && Row(a) == Row(b) && Seat(a) == Seat(b) && Seller(a) == Seller(b)
  }

  /** The listing with every field already normalised. */
  function Normalized(l: Listing): Listing {
    Listing(l.id, Name(l), Some(Date(l)), Some(Section(l)), Some(Row(l)), Some(Seat(l)), Seller(l), Some(Normalize(l.status)))
  }

  /** Normalising the fields first changes neither the ticket nor its fingerprint. */
  lemma {:induction false} NormalizedIsSame(l: Listing)
    ensures SameTicket(Normalized(l), l) && Fingerprint(Normalized(l)) == Fingerprint(l) && IsActive(Normalized(l)) == IsActive(l)
  {
    NormalizeIdempotent(Some(l.eventName));
    NormalizeIdempotent(l.eventDate);
    NormalizeIdempotent(l.section);
    NormalizeIdempotent(l.row);
    NormalizeIdempotent(l.seat);
    NormalizeIdempotent(Some(l.sellerId));
    NormalizeIdempotent(l.status);
  }

  /** How many separators a text contains. */
  function Pipes(s: string): nat {
    if s == "" then 0 else (if s[0] == '|' then 1 else 0) + Pipes(s[1..])
  }

  predicate PipesAgree(a: Listing, b: Listing) {
    Pipes(Name(a)) == Pipes(Name(b)) && Pipes(Date(a)) == Pipes(Date(b))
  }

  lemma {:induction false} SplitSame(a: string, x: string, b: string, y: string)
    requires a + "|" + x == b + "|" + y && Pipes(a) == Pipes(b)
    ensures a == b && x == y
  {
    var s, t := a + "|" + x, b + "|" + y;
    assert s[0] == (if a == "" then '|' else a[0]) && t[0] == (if b == "" then '|' else b[0]);
    if a == "" || b == "" {
      assert a == "" && b == "";
      assert x == s[1..] && y == t[1..];
    } else {
      assert s[1..] == a[1..] + "|" + x && t[1..] == b[1..] + "|" + y;
      SplitSame(a[1..], x, b[1..], y);
    }
  }

  lemma {:induction false} SeatHasNoPipe(s: string)
    requires IsSeat(s)
    ensures Pipes(s) == 0
  {
    if s != "" { SeatHasNoPipe(s[1..]); }
  }

  lemma {:induction false} SeatsHaveNoPipe(l: Listing)
    ensures Pipes(Section(l)) == 0 && Pipes(Row(l)) == 0 && Pipes(Seat(l)) == 0
  {
    NormalizeSeatIs(l.section);
    NormalizeSeatIs(l.row);
    NormalizeSeatIs(l.seat);
    SeatHasNoPipe(Section(l));
    SeatHasNoPipe(Row(l));
    SeatHasNoPipe(Seat(l));
  }

  /**
   * Exactly when a fingerprint identifies the ticket: equal fingerprints mean
   * equal fields if and only if the event names, and the dates, contain the
   * separator equally often - in particular when they never do.
   */
  lemma {:induction false} FingerprintIff(a: Listing, b: Listing)
    ensures SameTicket(a, b) <==> Fingerprint(a) == Fingerprint(b) && PipesAgree(a, b)
  {
    if Fingerprint(a) == Fingerprint(b) && PipesAgree(a, b) {
      SeatsHaveNoPipe(a);
      SeatsHaveNoPipe(b);
      Parts(Name(a), Date(a), Section(a), Row(a), Seat(a), Seller(a));
      Parts(Name(b), Date(b), Section(b), Row(b), Seat(b), Seller(b));
      SplitSame(Name(a), Rest1(a), Name(b), Rest1(b));
      SplitSame(Date(a), Rest2(a), Date(b), Rest2(b));
      SplitSame(Section(a), Rest3(a), Section(b), Rest3(b));
      SplitSame(Row(a), Rest4(a), Row(b), Rest4(b));
      SplitSame(Seat(a), Seller(a), Seat(b), Seller(b));
    }
  }

  function Rest4(l: Listing): string { Seat(l) + "|" + Seller(l) }
  function Rest3(l: Listing): string { Row(l) + "|" + Rest4(l) }
  function Rest2(l: Listing): string { Section(l) + "|" + Rest3(l) }
  function Rest1(l: Listing): string { Date(l) + "|" + Rest2(l) }

  lemma {:induction false} Parts(name: string, date: string, section: string, row: string, seat: string, seller: string)
    ensures name + "|" + date + "|" + section + "|" + row + "|" + seat + "|" + seller
      == name + "|" + (date + "|" + (section + "|" + (row + "|" + (seat + "|" + seller))))
  {}

  /** The parts of a text between separators. */
  function Fields(s: string): (r: seq<string>)
    ensures r != []
  {
    if s == "" then [""]
    else if s[0] == '|' then [""] + Fields(s[1..])
    else [[s[0]] + Fields(s[1..])[0]] + Fields(s[1..])[1..]
  }

  lemma {:induction false} FieldsThen(a: string, rest: string)
    requires Pipes(a) == 0
    ensures Fields(a + "|" + rest) == [a] + Fields(rest)
  {
    var s := a + "|" + rest;
    if a == "" {
      assert s[1..] == rest;
    } else {
      assert s[1..] == a[1..] + "|" + rest;
      FieldsThen(a[1..], rest);
      assert [a[0]] + a[1..] == a;
      assert ([a[1..]] + Fields(rest))[1..] == Fields(rest);
    }
  }

  lemma {:induction false} FieldAlone(a: string)
    requires Pipes(a) == 0
    ensures Fields(a) == [a]
  {
    if a != "" {
      FieldAlone(a[1..]);
      assert [a[0]] + a[1..] == a && [a[1..]][1..] == [];
    }
  }

  lemma {:induction false} SixFields(a: string, b: string, c: string, d: string, e: string, f: string)
    requires Pipes(a) == 0 && Pipes(b) == 0 && Pipes(c) == 0 && Pipes(d) == 0 && Pipes(e) == 0 && Pipes(f) == 0
    ensures Fields(a + "|" + b + "|" + c + "|" + d + "|" + e + "|" + f) == [a, b, c, d, e, f]
  {
    Parts(a, b, c, d, e, f);
    ThreeThen(a, b, c, d + "|" + (e + "|" + f));
    ThreeFields(d, e, f);
  }

  lemma {:induction false} ThreeThen(a: string, b: string, c: string, rest: string)
    requires Pipes(a) == 0 && Pipes(b) == 0 && Pipes(c) == 0
    ensures Fields(a + "|" + (b + "|" + (c + "|" + rest))) == [a, b, c] + Fields(rest)
  {
    FieldsThen(a, b + "|" + (c + "|" + rest));
    FieldsThen(b, c + "|" + rest);
    FieldsThen(c, rest);
  }

  lemma {:induction false} ThreeFields(a: string, b: string, c: string)
    requires Pipes(a) == 0 && Pipes(b) == 0 && Pipes(c) == 0
    ensures Fields(a + "|" + (b + "|" + c)) == [a, b, c]
  {
    FieldsThen(a, b + "|" + c);
    FieldsThen(b, c);
    FieldAlone(c);
  }

  /** The fingerprint is the event, date, section, row, seat and seller, normalised, in this order. */
  lemma {:induction false} FingerprintReads(l: Listing)
    requires Pipes(Normalize(Some(l.eventName))) == 0 && Pipes(Normalize(l.eventDate)) == 0 && Pipes(Normalize(Some(l.sellerId))) == 0
    ensures Fields(Fingerprint(l)) == [
      Normalize(Some(l.eventName)), Normalize(l.eventDate),
      NormalizeSeat(l.section), NormalizeSeat(l.row), NormalizeSeat(l.seat),
      Normalize(Some(l.sellerId))]
  {
    SeatsHaveNoPipe(l);
    SixFields(Name(l), Date(l), Section(l), Row(l), Seat(l), Seller(l));
  }

  lemma {:induction false} SeparatorMoves(a: Listing, b: Listing, x: string, y: string, z: string)
    requires Name(a) == x + "|" + y && Date(a) == z && Name(b) == x && Date(b) == y + "|" + z
    requires Section(a) == Section(b) && Row(a) == Row(b) && Seat(a) == Seat(b) && Seller(a) == Seller(b)
    ensures Fingerprint(a) == Fingerprint(b)
  {
    assert Name(a) + "|" + Date(a) == Name(b) + "|" + Date(b) by { SeparatorJoins(x, y, z); }
  }

  lemma {:induction false} SeparatorJoins(x: string, y: string, z: string)
    ensures x + "|" + y + "|" + z == x + "|" + (y + "|" + z)
  {}

  /** A separator in a name or date can make two different tickets look alike. */
  lemma {:induction false} FingerprintsCollide(x: string, y: string, z: string) returns (a: Listing, b: Listing)
    requires IsNormal(x) && IsNormal(x + "|" + y) && IsNormal(z) && IsNormal(y + "|" + z)
    ensures Fingerprint(a) == Fingerprint(b) && !SameTicket(a, b)
  {
    a := Listing(None, x + "|" + y, Some(z), None, None, None, "s", None);
    b := Listing(None, x, Some(y + "|" + z), None, None, None, "s", None);
    NormalStays(x + "|" + y);
    NormalStays(z);
    NormalStays(x);
    NormalStays(y + "|" + z);
    SeparatorMoves(a, b, x, y, z);
    assert |Name(a)| > |Name(b)|;
  }

  // ---------------------------------------------------------------- risk

  /** `isActiveListing`: no status counts as active. */
  predicate IsActive(l: Listing) {
    var status := Normalize(l.status);
    status == "" || status == "active" || status == "pending" || status == "reserved"
  }

  /** The status, but for white space around it and case. */
  predicate StatusIs(l: Listing, status: string) {
    l.status.Some? && Text.SameIgnoringCase(Text.Trim(l.status.value), status)
  }

  predicate NoStatus(l: Listing) {
    l.status.None? || Text.Trim(l.status.value) == ""
  }

  predicate NoSpace(s: string) {
    forall i :: 0 <= i < |s| ==> !Text.IsSpace(s[i])
  }

  lemma {:induction false} CollapseOfWord(s: string)
    requires NoSpace(Collapse(s))
    ensures Collapse(s) == s
  {
    CollapseIs(s);
    if s != "" && !Text.IsSpace(s[0]) {
      assert Collapse(s)[1..] == Collapse(s[1..]);
      CollapseOfWord(s[1..]);
    }
  }

  lemma {:induction false} CollapseKeepsWord(s: string)
    requires NoSpace(s)
    ensures Collapse(s) == s
  {
    CollapseFixed(s);
  }

  lemma {:induction false} NormalizedIs(value: string, word: string)
    requires Text.AllLower(word) && NoSpace(word)
    ensures Normalize(Some(value)) == word <==> Text.SameIgnoringCase(Text.Trim(value), word)
  {
    var lower := Text.Lower(Text.Trim(value));
    Text.LowerIs(Text.Trim(value), word);
    if Collapse(lower) == word { CollapseOfWord(lower); }
    if lower == word { CollapseKeepsWord(lower); }
  }

  /** Which listings are active: those without a status, and the active, pending and reserved ones. */
  lemma {:induction false} ActiveIff(l: Listing)
    ensures IsActive(l) <==> NoStatus(l) || StatusIs(l, "active") || StatusIs(l, "pending") || StatusIs(l, "reserved")
  {
    if l.status.Some? {
      NormalizedBlank(l.status.value);
      NormalizedIs(l.status.value, "active");
      NormalizedIs(l.status.value, "pending");
      NormalizedIs(l.status.value, "reserved");
    } else {
      NormalizedBlank("");
    }
  }

  lemma {:induction false} NormalizedBlank(value: string)
    ensures Normalize(Some(value)) == "" <==> Text.Trim(value) == ""
    ensures Normalize(None) == ""
  {
    NormalizedIs(value, "");
    assert Text.Trim("") == "" && Text.Lower("") == "";
  }

  datatype Tier = SameEvent | SameSection | Exact
  {
    function Reason(): string {
      match this
      case Exact => "same seller, event, section, row, and seat"
      case SameSection => "same seller, event, and section — different row or seat"
      case SameEvent => "same seller and event — no section or seat overlap"
    }

    function Confidence(): real {
      match this
      case Exact => 0.95
      case SameSection => 0.6
      case SameEvent => 0.2
    }

    function Level(): Level {
      match this
      case Exact => High
      case SameSection => Medium
      case SameEvent => Low
    }
  }

  datatype Level = Low | Medium | High

  datatype Match = Match(id: Option<string>, fingerprint: string, reason: string, confidence: real)

  /** `warning` is given by the tier of the matches. */
  datatype Risk = Risk(fingerprint: string, duplicate: bool, level: Level, warning: Option<Tier>, matches: seq<Match>)

  function Others(candidate: Listing): Listing -> bool {
    (l: Listing) => l.id != candidate.id && IsActive(l)
  }

  predicate Meets(candidate: Listing, l: Listing, tier: Tier) {
    match tier
    case Exact => Fingerprint(l) == Fingerprint(candidate)
    case SameSection =>
      Name(l) == Name(candidate) && Seller(l) == Seller(candidate) && Section(l) != "" && Section(l) == Section(candidate)
    case SameEvent => Name(l) == Name(candidate) && Seller(l) == Seller(candidate)
  }

  function Meeting(candidate: Listing, tier: Tier): Listing -> bool {
    (l: Listing) => Meets(candidate, l, tier)
  }

  function Matches(ls: seq<Listing>, tier: Tier): seq<Match> {
    seq(|ls|, i requires 0 <= i < |ls| => Match(ls[i].id, Fingerprint(ls[i]), tier.Reason(), tier.Confidence()))
  }

  function RiskOf(candidate: Listing, found: seq<Listing>, tier: Tier): Risk {
    Risk(Fingerprint(candidate), tier == Exact, tier.Level(), Some(tier), Matches(found, tier))
  }

  /** `assessListingRisk` */
  function Assess(candidate: Listing, existing: seq<Listing>): Risk {
    var actives := Paging.Filter(existing, Others(candidate));
    var exact := Paging.Filter(actives, Meeting(candidate, Exact));
    if exact != [] then RiskOf(candidate, exact, Exact)
    else
      var section := Paging.Filter(actives, Meeting(candidate, SameSection));
      if section != [] then RiskOf(candidate, section, SameSection)
      else
        var soft := Paging.Filter(actives, Meeting(candidate, SameEvent));
        if soft != [] then RiskOf(candidate, soft, SameEvent)
        else Risk(Fingerprint(candidate), false, Low, None, [])
  }

  // ---------------------------------------------------------------- what the answer means

  /** The closest way in which a listing resembles the candidate. */
  function Closest(candidate: Listing, l: Listing): Option<Tier> {
    if Meets(candidate, l, Exact) then Some(Exact)
    else if Meets(candidate, l, SameSection) then Some(SameSection)
    else if Meets(candidate, l, SameEvent) then Some(SameEvent)
    else None
  }

  function ClosestIs(candidate: Listing, tier: Option<Tier>): Listing -> bool {
    (l: Listing) => Closest(candidate, l) == tier
  }

  /** Some other active listing resembles the candidate at least this closely. */
  ghost predicate Occurs(candidate: Listing, existing: seq<Listing>, tier: Tier) {
    exists l :: l in existing && Others(candidate)(l) && Meets(candidate, l, tier)
  }

  lemma {:induction false} FilterEmptyIff(ls: seq<Listing>, p: Listing -> bool)
    ensures Paging.Filter(ls, p) == [] <==> forall l :: l in ls ==> !p(l)
  {
    if ls != [] {
      FilterEmptyIff(ls[..|ls| - 1], p);
      assert forall l :: l in ls <==> l in ls[..|ls| - 1] || l == ls[|ls| - 1];
    }
  }

  lemma {:induction false} FilterTwice(ls: seq<Listing>, p: Listing -> bool, q: Listing -> bool)
    ensures Paging.Filter(Paging.Filter(ls, p), q) == [] <==> forall l :: l in ls && p(l) ==> !q(l)
  {
    if ls != [] {
      var n := |ls| - 1;
      FilterTwice(ls[..n], p, q);
      Paging.FilterConcat(Paging.Filter(ls[..n], p), if p(ls[n]) then [ls[n]] else [], q);
      assert forall l :: l in ls <==> l in ls[..n] || l == ls[n];
    }
  }

  /** The warning names the closest resemblance that occurs. */
  lemma {:induction false} WarningIs(candidate: Listing, existing: seq<Listing>)
    ensures var warning := Assess(candidate, existing).warning;
      && (warning == Some(Exact) <==> Occurs(candidate, existing, Exact))
      && (warning == Some(SameSection) <==> !Occurs(candidate, existing, Exact) && Occurs(candidate, existing, SameSection))
      && (warning == Some(SameEvent) <==>
            !Occurs(candidate, existing, Exact) && !Occurs(candidate, existing, SameSection) && Occurs(candidate, existing, SameEvent))
  {
    FilterTwice(existing, Others(candidate), Meeting(candidate, Exact));
    FilterTwice(existing, Others(candidate), Meeting(candidate, SameSection));
    FilterTwice(existing, Others(candidate), Meeting(candidate, SameEvent));
  }

  lemma {:induction false} SameFilter(ls: seq<Listing>, p: Listing -> bool, q: Listing -> bool)
    requires forall l :: l in ls ==> p(l) == q(l)
    ensures Paging.Filter(ls, p) == Paging.Filter(ls, q)
  {
    if ls != [] { SameFilter(ls[..|ls| - 1], p, q); }
  }

  /**
   * The tiers partition every input: the level is that of the closest
   * resemblance among the other active listings, and the matches are exactly
   * the listings that resemble the candidate that closely, in order.
   */
  lemma {:induction false} TiersPartition(candidate: Listing, existing: seq<Listing>)
    ensures var r := Assess(candidate, existing); var actives := Paging.Filter(existing, Others(candidate));
      && (r.duplicate <==> r.warning == Some(Exact))
      && (r.level == High <==> r.warning == Some(Exact)) && (r.level == Medium <==> r.warning == Some(SameSection))
      && (r.warning.None? <==> forall l :: l in actives ==> Closest(candidate, l).None?)
      && r.matches ==
          if r.warning.None? then [] else Matches(Paging.Filter(actives, ClosestIs(candidate, r.warning)), r.warning.value)
  {
    var r := Assess(candidate, existing);
    var actives := Paging.Filter(existing, Others(candidate));
    FilterEmptyIff(actives, Meeting(candidate, Exact));
    FilterEmptyIff(actives, Meeting(candidate, SameSection));
    FilterEmptyIff(actives, Meeting(candidate, SameEvent));
    match r.warning
    case None =>
    case Some(tier) => ClosestAre(candidate, actives, tier);
  }

  /** Where nothing is closer than `tier`, the listings that meet it are those closest by it. */
  lemma {:induction false} ClosestAre(candidate: Listing, actives: seq<Listing>, tier: Tier)
    requires tier != Exact ==> forall l :: l in actives ==> !Meeting(candidate, Exact)(l)
    requires tier == SameEvent ==> forall l :: l in actives ==> !Meeting(candidate, SameSection)(l)
    ensures Paging.Filter(actives, Meeting(candidate, tier)) == Paging.Filter(actives, ClosestIs(candidate, Some(tier)))
  {
    SameFilter(actives, Meeting(candidate, tier), ClosestIs(candidate, Some(tier)));
  }

  /**
   * `duplicate` means that another active listing has the same fingerprint;
   * where names and dates hold equally many separators, that it is for the
   * same ticket.  A listing for the same ticket is never missed.
   */
  lemma {:induction false} DuplicateIff(candidate: Listing, existing: seq<Listing>)
    ensures var duplicate := Assess(candidate, existing).duplicate;
      && (duplicate <==> exists l :: l in existing && OtherActive(candidate, l) && Fingerprint(l) == Fingerprint(candidate))
      && ((exists l :: l in existing && OtherActive(candidate, l) && SameTicket(candidate, l)) ==> duplicate)
      && ((forall l :: l in existing && OtherActive(candidate, l) ==> PipesAgree(candidate, l)) ==>
            (duplicate <==> exists l :: l in existing && OtherActive(candidate, l) && SameTicket(candidate, l)))
  {
    WarningIs(candidate, existing);
    TiersPartition(candidate, existing);
    forall l | l in existing
      ensures SameTicket(candidate, l) <==> Fingerprint(candidate) == Fingerprint(l) && PipesAgree(candidate, l)
      ensures OtherActive(candidate, l) <==> Others(candidate)(l)
    {
      FingerprintIff(candidate, l);
      ActiveIff(l);
    }
    if (exists l :: l in existing && OtherActive(candidate, l) && Fingerprint(l) == Fingerprint(candidate)) {
      var l :| l in existing && OtherActive(candidate, l) && Fingerprint(l) == Fingerprint(candidate);
      assert Meets(candidate, l, Exact);
    }
  }

  /** Another listing that is active. */
  predicate OtherActive(candidate: Listing, l: Listing) {
    && l.id != candidate.id
    && (NoStatus(l) || StatusIs(l, "active") || StatusIs(l, "pending") || StatusIs(l, "reserved"))
  }

  predicate SameEventAndSeller(candidate: Listing, l: Listing) {
    Normalize(Some(l.eventName)) == Normalize(Some(candidate.eventName)) && Normalize(Some(l.sellerId)) == Normalize(Some(candidate.sellerId))
  }

  predicate SameNamedSection(candidate: Listing, l: Listing) {
    NormalizeSeat(l.section) != "" && NormalizeSeat(l.section) == NormalizeSeat(candidate.section)
  }

  /** How a listing resembles the candidate where the risk is of this level. */
  predicate Resembles(candidate: Listing, l: Listing, level: Level) {
    match level
    case High => Fingerprint(l) == Fingerprint(candidate)
    case Medium => SameEventAndSeller(candidate, l) && SameNamedSection(candidate, l)
    case Low => SameEventAndSeller(candidate, l)
  }

  ghost predicate SomeResembles(candidate: Listing, existing: seq<Listing>, level: Level) {
    exists l :: l in existing && OtherActive(candidate, l) && Resembles(candidate, l, level)
  }

  lemma {:induction false} OccursIff(candidate: Listing, existing: seq<Listing>, tier: Tier)
    ensures Occurs(candidate, existing, tier) <==> SomeResembles(candidate, existing, tier.Level())
  {
    forall l | l in existing
      ensures Others(candidate)(l) && Meets(candidate, l, tier) <==> OtherActive(candidate, l) && Resembles(candidate, l, tier.Level())
    {
      ActiveIff(l);
    }
  }

  /**
   * The level of risk is that of the closest resemblance among the other
   * active listings: the same fingerprint, else the same event, seller and
   * named section, else the same event and seller, for which there is only a
   * warning; without any there is none.
   */
  lemma {:induction false} LevelIff(candidate: Listing, existing: seq<Listing>)
    ensures var r := Assess(candidate, existing);
      var high, medium, low := SomeResembles(candidate, existing, High), SomeResembles(candidate, existing, Medium), SomeResembles(candidate, existing, Low);
      && (r.level == High <==> high)
      && (r.level == Medium <==> !high && medium)
      && (r.warning.Some? <==> high || medium || low)
  {
    LevelFollowsWarning(candidate, existing);
    WarningOccurs(candidate, existing);
    OccursIff(candidate, existing, Exact);
    OccursIff(candidate, existing, SameSection);
    OccursIff(candidate, existing, SameEvent);
  }

  lemma {:induction false} LevelFollowsWarning(candidate: Listing, existing: seq<Listing>)
    ensures var r := Assess(candidate, existing);
      (r.level == High <==> r.warning == Some(Exact)) && (r.level == Medium <==> r.warning == Some(SameSection))
  {
    var r := Assess(candidate, existing);
    assert r.level == if r.warning.None? then Low else r.warning.value.Level();
  }

  lemma {:induction false} WarningOccurs(candidate: Listing, existing: seq<Listing>)
    ensures var warning := Assess(candidate, existing).warning;
      && (warning == Some(Exact) <==> Occurs(candidate, existing, Exact))
      && (warning == Some(SameSection) <==> !Occurs(candidate, existing, Exact) && Occurs(candidate, existing, SameSection))
      && (warning.Some? <==>
            Occurs(candidate, existing, Exact) || Occurs(candidate, existing, SameSection) || Occurs(candidate, existing, SameEvent))
  {
    WarningIs(candidate, existing);
    var warning := Assess(candidate, existing).warning;
    assert warning.None? || warning == Some(Exact) || warning == Some(SameSection) || warning == Some(SameEvent);
  }

  /** What a match says of a listing at each level of risk. */
  predicate Says(m: Match, l: Listing, level: Level) {
    && m.id == l.id && m.fingerprint == Fingerprint(l)
    && (match level
        case High => m.confidence == 0.95 && m.reason == "same seller, event, section, row, and seat"
        case Medium => m.confidence == 0.6 && m.reason == "same seller, event, and section — different row or seat"
        case Low => m.confidence == 0.2 && m.reason == "same seller and event — no section or seat overlap")
  }

  /** Every match is about another active listing that resembles the candidate, with the figures and the words of its level. */
  lemma {:induction false} MatchesSay(candidate: Listing, existing: seq<Listing>, i: nat)
    requires i < |Assess(candidate, existing).matches|
    ensures var r := Assess(candidate, existing);
      && r.fingerprint == Fingerprint(candidate)
      && exists l :: l in existing && OtherActive(candidate, l) && Resembles(candidate, l, r.level) && Says(r.matches[i], l, r.level)
  {
    var r := Assess(candidate, existing);
    assert r.warning.Some? && r.level == r.warning.value.Level();
    var l := MatchIsOf(candidate, existing, i);
    LevelSays(l, r.warning.value);
    ActiveIff(l);
    assert Resembles(candidate, l, r.level);
  }

  lemma {:induction false} MatchIsOf(candidate: Listing, existing: seq<Listing>, i: nat) returns (l: Listing)
    requires i < |Assess(candidate, existing).matches| && Assess(candidate, existing).warning.Some?
    ensures var r := Assess(candidate, existing);
      && l in existing && Others(candidate)(l) && Meets(candidate, l, r.warning.value)
      && r.matches[i] == Match(l.id, Fingerprint(l), r.warning.value.Reason(), r.warning.value.Confidence())
  {
    var r := Assess(candidate, existing);
    var actives := Paging.Filter(existing, Others(candidate));
    var tier := r.warning.value;
    var found := Paging.Filter(actives, Meeting(candidate, tier));
    assert r.matches == Matches(found, tier);
    l := found[i];
    Paging.FilterMembers(actives, Meeting(candidate, tier));
    assert l in actives && Meeting(candidate, tier)(l);
    Paging.FilterMembers(existing, Others(candidate));
    assert l in existing && Others(candidate)(l);
  }

  lemma {:induction false} LevelSays(l: Listing, tier: Tier)
    ensures Says(Match(l.id, Fingerprint(l), tier.Reason(), tier.Confidence()), l, tier.Level())
  {}

  function Rank(r: Risk): nat {
    match r.warning
    case None => 0
    case Some(SameEvent) => 1
    case Some(SameSection) => 2
    case Some(Exact) => 3
  }

  /** More listings never lower the risk; order and repetition do not matter. */
  lemma {:induction false} MoreListingsMoreRisk(candidate: Listing, ls: seq<Listing>, more: seq<Listing>)
    requires forall l :: l in ls ==> l in more
    ensures Rank(Assess(candidate, ls)) <= Rank(Assess(candidate, more))
  {
    RankIs(candidate, ls);
    RankIs(candidate, more);
    OccursMore(candidate, ls, more, Exact);
    OccursMore(candidate, ls, more, SameSection);
    OccursMore(candidate, ls, more, SameEvent);
  }

  lemma {:induction false} RankIs(candidate: Listing, ls: seq<Listing>)
    ensures Rank(Assess(candidate, ls)) ==
      if Occurs(candidate, ls, Exact) then 3
      else if Occurs(candidate, ls, SameSection) then 2
      else if Occurs(candidate, ls, SameEvent) then 1
      else 0
  {
    WarningIs(candidate, ls);
  }

  lemma {:induction false} OccursMore(candidate: Listing, ls: seq<Listing>, more: seq<Listing>, tier: Tier)
    requires forall l :: l in ls ==> l in more
    ensures Occurs(candidate, ls, tier) ==> Occurs(candidate, more, tier)
  {}

  lemma {:induction false} SameMeets(candidate: Listing, l: Listing, tier: Tier)
    ensures Meets(Normalized(candidate), l, tier) == Meets(candidate, l, tier)
  {
    NormalizedIsSame(candidate);
  }

  /** The answer depends only on the candidate's normalised fields. */
  lemma {:induction false} AssessNormalized(candidate: Listing, existing: seq<Listing>)
    ensures Assess(Normalized(candidate), existing) == Assess(candidate, existing)
  {
    NormalizedIsSame(candidate);
    SameFilter(existing, Others(Normalized(candidate)), Others(candidate));
    var actives := Paging.Filter(existing, Others(candidate));
    forall l, tier | l in actives ensures Meeting(Normalized(candidate), tier)(l) == Meeting(candidate, tier)(l) {
      SameMeets(candidate, l, tier);
    }
    SameFilter(actives, Meeting(Normalized(candidate), Exact), Meeting(candidate, Exact));
    SameFilter(actives, Meeting(Normalized(candidate), SameSection), Meeting(candidate, SameSection));
    SameFilter(actives, Meeting(Normalized(candidate), SameEvent), Meeting(candidate, SameEvent));
  }

  /** A section match differs in row or seat - or only in the date, which its wording does not say. */
  lemma {:induction false} SectionMatchDiffers(candidate: Listing, l: Listing)
    ensures Closest(candidate, l) == Some(SameSection) ==>
      Date(l) != Date(candidate) || Row(l) != Row(candidate) || Seat(l) != Seat(candidate)
  {
    FingerprintIff(candidate, l);
  }

  lemma {:induction false} OtherDateOtherFingerprint(a: Listing, b: Listing)
    requires Name(a) == Name(b) && Date(a) != Date(b) && Rest2(a) == Rest2(b)
    ensures Fingerprint(a) != Fingerprint(b)
  {
    Parts(Name(a), Date(a), Section(a), Row(a), Seat(a), Seller(a));
    Parts(Name(b), Date(b), Section(b), Row(b), Seat(b), Seller(b));
    if Fingerprint(a) == Fingerprint(b) {
      SplitSame(Name(a), Rest1(a), Name(b), Rest1(b));
      SameTail(Date(a) + "|", Date(b) + "|", Rest2(a));
      SameTail(Date(a), Date(b), "|");
    }
  }

  /**
   * Exactly when the wording of a section match, "different row or seat", is
   * wrong: when the two listings agree on everything but the date.
   */
  lemma {:induction false} SectionWordingWrongIff(candidate: Listing, l: Listing)
    ensures Closest(candidate, l) == Some(SameSection) && Row(l) == Row(candidate) && Seat(l) == Seat(candidate)
      <==>
        && Name(l) == Name(candidate) && Seller(l) == Seller(candidate) && Section(l) == Section(candidate) != ""
        && Row(l) == Row(candidate) && Seat(l) == Seat(candidate) && Date(l) != Date(candidate)
  {
    SectionMatchDiffers(candidate, l);
    if Name(l) == Name(candidate) && Date(l) != Date(candidate) && Rest2(l) == Rest2(candidate) {
      OtherDateOtherFingerprint(l, candidate);
    }
  }

  lemma {:induction false} OnlyTheDateDiffers(candidate: Listing, l: Listing)
    requires Section(candidate) != "" && Date(l) != Date(candidate)
    requires l == candidate.(id := l.id, eventDate := l.eventDate, status := l.status)
    ensures Closest(candidate, l) == Some(SameSection)
  {
    SectionWordingWrongIff(candidate, l);
  }

  lemma {:induction false} SameTail(a: string, b: string, x: string)
    requires a + x == b + x
    ensures a == b
  {
    assert |a| == |b| && a == (a + x)[..|a|] && b == (b + x)[..|b|];
  }
}
