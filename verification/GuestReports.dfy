/** The filesystem guest's reports as text, and how the launcher's checks read them. */
module GuestReports {
  import opened Prelude
  import K = Keystore
  import L = Launch

  function Digit(d: nat): char
    requires d < 10
  {
    ('0' as int + d) as char
  }

  function Decimal(n: nat): string {
    if n < 10 then [Digit(n)] else Decimal(n / 10) + [Digit(n % 10)]
  }

  lemma {:induction false} DecimalIsDigits(n: nat)
    ensures forall c :: c in Decimal(n) ==> '0' <= c <= '9'
  {
    if n >= 10 {
      DecimalIsDigits(n / 10);
    }
  }

  function ValueOf(digits: string): int {
    if digits == "" then 0 else 10 * ValueOf(digits[..|digits| - 1]) + (digits[|digits| - 1] as int - '0' as int)
  }

  /** The digits of a number say that number. */
  lemma {:induction false} DecimalSays(n: nat)
    ensures ValueOf(Decimal(n)) == n
  {
    if n >= 10 {
      DecimalSays(n / 10);
      assert Decimal(n)[..|Decimal(n)| - 1] == Decimal(n / 10);
    } else {
      assert ValueOf("") == 0;
    }
  }

  // The prefixes the launcher looks for.
  const OK_PREFIX := "ok: "
  const ERROR_PREFIX := "error: "

  const OK_HEAD := OK_PREFIX + "wrote and read back "

  function OkReport(n: nat, oversized: string, ungranted: string): string {
    OK_HEAD + Decimal(n) + " bytes; " + ("oversized write=" + oversized) + ", " + "content intact" + "; "
    + ("filesystem.open(1)=" + ungranted)
  }

  function FreshReport(n: nat): string {
    ERROR_PREFIX + "a fresh file read back " + Decimal(n) + " bytes, not 0"
  }

  const NO_FILE := ERROR_PREFIX + "the manifest granted no file at filesystem slot 0"

  const READ_DENIED := ERROR_PREFIX + "reading the fresh file failed: "
  const WRITE_DENIED := ERROR_PREFIX + "write failed: "

  function ReadDenied(code: string): string {
    READ_DENIED + code
  }

  function WriteDenied(code: string): string {
    WRITE_DENIED + code
  }

  lemma Regroup(h: string, d: string, b1: string, b2: string, x: string, c1: string, c2: string, c3: string,
                c4: string, y: string)
    ensures h + d + b1 + (b2 + x) + c1 + c2 + c3 + (c4 + y) == h + d + (b1 + b2) + x + (c1 + c2 + c3 + c4) + y
  {
  }

  /** The reports in full. */
  lemma OkText(n: nat, x: string, y: string)
    ensures OkReport(n, x, y) == "ok: wrote and read back " + Decimal(n) + " bytes; oversized write=" + x
                                 + ", content intact; filesystem.open(1)=" + y
  {
    hide Decimal;
    Regroup(OK_HEAD, Decimal(n), " bytes; ", "oversized write=", x, ", ", "content intact", "; ",
        "filesystem.open(1)=", y);
    assert OK_HEAD == "ok: wrote and read back ";
    assert " bytes; " + "oversized write=" == " bytes; oversized write=";
    TailText();
  }

  lemma TailText()
    ensures ", " + "content intact" + "; " + "filesystem.open(1)=" == ", content intact; filesystem.open(1)="
  {
  }

  lemma FreshText(n: nat)
    ensures FreshReport(n) == "error: a fresh file read back " + Decimal(n) + " bytes, not 0"
  {
    hide Decimal;
    assert ERROR_PREFIX + "a fresh file read back " == "error: a fresh file read back ";
  }

  lemma WriteDeniedText(code: string)
    ensures WriteDenied(code) == "error: write failed: " + code
  {
    assert WRITE_DENIED == "error: write failed: ";
  }

  lemma ReadDeniedText(code: string)
    ensures ReadDenied(code) == "error: reading the fresh file failed: " + code
  {
    assert READ_DENIED == "error: reading the fresh file failed: ";
  }

  const REFUSED := L.ChecksOf(L.ForFilesystem).refused

  const REQUIRED := L.ChecksOf(L.ForFilesystem).required

  lemma ContainsMiddle(a: string, m: string, b: string)
    ensures L.Contains(a + m + b, m)
  {
    assert (a + m + b)[|a|..] == m + b;
    assert L.MarkerAt(a + m + b, m, |a|);
  }

  /** A text that contains a marker has the marker's characters. */
  lemma NeedsItsCharacters(text: string, marker: string, k: nat)
    requires k < |marker| && L.Contains(text, marker)
    ensures marker[k] in text
  {
    var i: nat :| i <= |text| && L.MarkerAt(text, marker, i);
    assert text[i..][k] == marker[k];
    assert text[i + k] in text;
  }

  /** A marker with a character that a text has only once ends as the text does after it. */
  lemma AnchoredMarker(a: string, c: char, b: string, ma: string, mb: string)
    requires c !in a && c !in b && c !in ma && c !in mb
    ensures L.Contains(a + [c] + b, ma + [c] + mb) ==> mb <= b
  {
    var text, marker := a + [c] + b, ma + [c] + mb;
    if L.Contains(text, marker) {
      var i: nat :| i <= |text| && L.MarkerAt(text, marker, i);
      assert text[i..][|ma|] == c;
      assert text[i + |ma|] == c;
      assert i + |ma| == |a|;
      assert text[i..][|ma| + 1..] == b;
      assert marker[|ma| + 1..] == mb;
    }
  }

  /** Three markers laid end to end among other text. */
  lemma ThreeMarkers(a: string, b: string, c: string, m1: string, s1: string, m2: string, s2: string, m3: string)
    ensures var text := a + b + c + m1 + s1 + m2 + s2 + m3;
            a <= text && L.Contains(text, m1) && L.Contains(text, m2) && L.Contains(text, m3)
  {
    var text := a + b + c + m1 + s1 + m2 + s2 + m3;
    ContainsMiddle(a + b + c, m1, s1 + m2 + s2 + m3);
    assert text == a + b + c + m1 + (s1 + m2 + s2 + m3);
    ContainsMiddle(a + b + c + m1 + s1, m2, s2 + m3);
    assert text == a + b + c + m1 + s1 + m2 + (s2 + m3);
    ContainsMiddle(a + b + c + m1 + s1 + m2 + s2, m3, "");
    assert text == a + b + c + m1 + s1 + m2 + s2 + m3 + "";
  }

  lemma OkPasses(n: nat)
    ensures L.Accepted(REQUIRED, OkReport(n, "invalid", "none"))
  {
    hide L.Contains, Decimal;
    ThreeMarkers(OK_HEAD, Decimal(n), " bytes; ", "oversized write=" + "invalid", ", ", "content intact", "; ",
        "filesystem.open(1)=" + "none");
    assert "oversized write=" + "invalid" == "oversized write=invalid";
    assert "filesystem.open(1)=" + "none" == "filesystem.open(1)=none";
    assert "ok: " <= OK_HEAD;
  }

  lemma OkStartsOk(n: nat, ungranted: string)
    ensures "ok: " <= OkReport(n, "invalid", ungranted)
  {
    hide L.Contains, Decimal;
    ThreeMarkers(OK_HEAD, Decimal(n), " bytes; ", "oversized write=" + "invalid", ", ", "content intact", "; ",
        "filesystem.open(1)=" + ungranted);
    assert "ok: " <= OK_HEAD;
  }

  /** A handle leaked at slot 1 fails the report. */
  lemma LeakFails(n: nat)
    ensures !L.Accepted(REQUIRED, OkReport(n, "invalid", "LEAKED"))
  {
    hide L.Contains, Decimal;
    HeadHasNoParenthesis(n);
    var head := OK_HEAD + Decimal(n) + " bytes; " + ("oversized write=" + "invalid") + ", " + "content intact" + "; ";
    LeakText(head, "filesystem.open", "1)=", "LEAKED");
    assert "filesystem.open(1)=" + "LEAKED" == "filesystem.open" + "(" + ("1)=" + "LEAKED");
    assert "filesystem.open(1)=none" == "filesystem.open" + ['('] + "1)=none";
    assert ("1)=" + "LEAKED")[3] == 'L' && "1)=none"[3] == 'n';
    AnchoredMarker(head + "filesystem.open", '(', "1)=" + "LEAKED", "filesystem.open", "1)=none");
    assert REQUIRED[2] == "filesystem.open(1)=none";
  }

  lemma HeadHasNoParenthesis(n: nat)
    ensures '(' !in
            OK_HEAD + Decimal(n) + " bytes; " + ("oversized write=" + "invalid") + ", " + "content intact" + "; "
  {
    hide Decimal;
    DecimalIsDigits(n);
    assert '(' !in OK_HEAD && '(' !in Decimal(n) && '(' !in " bytes; ";
    assert '(' !in ("oversized write=" + "invalid") && '(' !in "content intact";
  }

  lemma LeakText(a: string, b: string, c: string, d: string)
    ensures a + (b + ['('] + (c + d)) == (a + b) + ['('] + (c + d)
  {
  }

  /** The two reports that carry a denial's own text read as refusals; the others do not. */
  lemma DenialsAreRefused(code: string)
    requires L.Contains(code, REFUSED)
    ensures L.Refused(REFUSED, ReadDenied(code)) && L.Refused(REFUSED, WriteDenied(code))
  {
    hide L.Contains;
    ContainsTail(READ_DENIED, code, REFUSED);
    ContainsTail(WRITE_DENIED, code, REFUSED);
  }

  lemma Unquoted(text: string)
    requires '"' !in text
    ensures !L.Refused(REFUSED, text)
  {
    hide L.Contains;
    assert REFUSED[0] == '"';
    if L.Contains(text, REFUSED) {
      NeedsItsCharacters(text, REFUSED, 0);
    }
  }

  lemma NoFileHasNoQuote()
    ensures '"' !in NO_FILE
  {
    var front, back := ERROR_PREFIX + "the manifest granted ", "no file at filesystem slot 0";
    assert NO_FILE == front + back;
    assert '"' !in front && '"' !in back;
  }

  lemma OthersAreNotRefused(n: nat)
    ensures !L.Refused(REFUSED, NO_FILE) && !L.Refused(REFUSED, FreshReport(n))
    ensures !L.Refused(REFUSED, OkReport(n, "invalid", "none")) && !L.Refused(REFUSED, OkReport(n, "invalid", "LEAKED"))
  {
    hide L.Refused, Decimal;
    DecimalIsDigits(n);
    NoFileHasNoQuote();
    Unquoted(NO_FILE);
    assert '"' !in ERROR_PREFIX + "a fresh file read back " && '"' !in " bytes, not 0";
    Unquoted(FreshReport(n));
    OkHasNoQuote(n);
    Unquoted(OkReport(n, "invalid", "none"));
    Unquoted(OkReport(n, "invalid", "LEAKED"));
  }

  lemma OkHasNoQuote(n: nat)
    ensures '"' !in OkReport(n, "invalid", "none") && '"' !in OkReport(n, "invalid", "LEAKED")
  {
    hide Decimal;
    DecimalIsDigits(n);
    assert '"' !in OK_HEAD && '"' !in Decimal(n) && '"' !in " bytes; ";
    assert '"' !in ("oversized write=" + "invalid") && '"' !in "content intact";
    assert '"' !in ("filesystem.open(1)=" + "none") && '"' !in ("filesystem.open(1)=" + "LEAKED");
  }

  lemma ContainsTail(a: string, b: string, m: string)
    requires L.Contains(b, m)
    ensures L.Contains(a + b, m)
  {
    var i: nat :| i <= |b| && L.MarkerAt(b, m, i);
    assert (a + b)[|a| + i..] == b[i..];
    assert L.MarkerAt(a + b, m, |a| + i);
  }

  lemma ErrorsAreNotOk(report: string)
    requires "error: " <= report
    ensures !L.Accepted(REQUIRED, report) && !("ok: " <= report)
  {
    assert report[0] == 'e';
    assert "ok: "[0] == 'o';
  }

  // ----- Verdicts -----

  /** What the probe finds out, in the order it looks; a refusal comes with its error code. */
  datatype Verdict =
    | NoFile | NotReadable(code: K.ErrorCode) | NotFresh(len: nat) | NotWritable(code: K.ErrorCode) | Fine(leaked: bool)

  function ReportOf(v: Verdict, written: nat, debug: K.ErrorCode -> string): string {
    match v
    case NoFile => NO_FILE
    case NotReadable(code) => ReadDenied(debug(code))
    case NotFresh(len) => FreshReport(len)
    case NotWritable(code) => WriteDenied(debug(code))
    case Fine(leaked) => OkReport(written, "invalid", if leaked then "LEAKED" else "none")
  }

  /** The text of an error code shows `"access"` for that code only. */
  ghost predicate TellsAccess(debug: K.ErrorCode -> string) {
    L.Contains(debug(K.Access), REFUSED) && !L.Contains(debug(K.Invalid), REFUSED)
  }

  lemma ContainsOnlyInTail(a: string, b: string, m: string)
    requires m != [] && m[0] !in a && L.Contains(a + b, m)
    ensures L.Contains(b, m)
  {
    var i: nat :| i <= |a + b| && L.MarkerAt(a + b, m, i);
    assert (a + b)[i..][0] == m[0];
    assert (a + b)[i] == m[0];
    assert (a + b)[i..] == b[i - |a|..];
    assert L.MarkerAt(b, m, i - |a|);
  }

  /** A failure with any other error code does not read as a refusal. */
  lemma OtherCodesAreNotRefused(code: string)
    requires !L.Contains(code, REFUSED)
    ensures !L.Refused(REFUSED, ReadDenied(code)) && !L.Refused(REFUSED, WriteDenied(code))
  {
    hide L.Contains;
    HeadsHaveNoQuote();
    NotInTail(READ_DENIED, code);
    NotInTail(WRITE_DENIED, code);
  }

  lemma HeadsHaveNoQuote()
    ensures '"' !in READ_DENIED && '"' !in WRITE_DENIED
  {
  }

  lemma NotInTail(head: string, code: string)
    requires '"' !in head && !L.Contains(code, REFUSED)
    ensures !L.Contains(head + code, REFUSED)
  {
    hide L.Contains;
    assert REFUSED[0] == '"';
    if L.Contains(head + code, REFUSED) {
      ContainsOnlyInTail(head, code, REFUSED);
    }
  }

  /** How the launcher reads a report of each verdict. */
  lemma TextOf(v: Verdict, written: nat, debug: K.ErrorCode -> string)
    requires TellsAccess(debug)
    ensures var report := ReportOf(v, written, debug);
            && ("ok: " <= report <==> v.Fine?)
            && (L.Accepted(REQUIRED, report) <==> v == Fine(false))
            && (L.Refused(REFUSED, report) <==> v == NotReadable(K.Access) || v == NotWritable(K.Access))
  {
    hide L.Contains, L.Refused, L.Accepted, Decimal, OkReport, FreshReport, ReadDenied, WriteDenied;
    OkPasses(written);
    LeakFails(written);
    OkStartsOk(written, "none");
    OkStartsOk(written, "LEAKED");
    DenialsAreRefused(debug(K.Access));
    OtherCodesAreNotRefused(debug(K.Invalid));
    OthersAreNotRefused(if v.NotFresh? then v.len else written);
    if !v.Fine? {
      FailuresAreErrors(v, written, debug);
      ErrorsAreNotOk(ReportOf(v, written, debug));
      assert (v.NotReadable? || v.NotWritable?) ==> v.code.Access? || v.code.Invalid?;
    }
  }

  lemma FailuresAreErrors(v: Verdict, written: nat, debug: K.ErrorCode -> string)
    requires !v.Fine?
    ensures "error: " <= ReportOf(v, written, debug)
  {
    hide Decimal, OkReport;
  }
}
