/**
 * The response parser of botpower: `parse_response(response_txt)`, which
 * finds every `p6<digit>=<digit>` triplet in the device's free-form reply and
 * renders them as an outlet status report.
 *
 * `re.findall("(p6\d=\d)", t)` is modelled by FindAllFrom, a left-to-right
 * scan that resumes after each match, and by the loop of FindAll.
 */
module Response {
  import opened Wrappers

  /** An ASCII decimal digit: what `\d` stands for in this model. */
  predicate IsDigit(c: char)
  {
    '0' <= c <= '9'
  }

  /** The five characters of t from position i read `p6<digit>=<digit>`. */
  predicate MatchesAt(t: string, i: int)
  {
    && 0 <= i
    && i + 5 <= |t|
    && t[i] == 'p'
    && t[i + 1] == '6'
    && IsDigit(t[i + 2])
    && t[i + 3] == '='
    && IsDigit(t[i + 4])
  }

  /** A string that is exactly one match: an element of what `re.findall` returns. */
  predicate IsStatusPair(m: string)
  {
    |m| == 5 && MatchesAt(m, 0)
  }

  /** The matches of `re.findall` in t at or after position i, in order. */
  function FindAllFrom(t: string, i: nat): (r: seq<string>)
    requires i <= |t|
    ensures forall k :: 0 <= k < |r| ==> IsStatusPair(r[k])
    decreases |t| - i
  {
    if |t| - i < 5 then []
    else if MatchesAt(t, i) then [t[i..i + 5]] + FindAllFrom(t, i + 5)
    else FindAllFrom(t, i + 1)
  }

  /** `re.findall("(p6\d=\d)", t)`. */
  function Matches(t: string): seq<string>
  {
    FindAllFrom(t, 0)
  }

  /**
   * The reference reading of the pattern: the five characters at EVERY
   * position from i on where the pattern matches, overlapping or not.
   */
  function EveryMatchFrom(t: string, i: nat): seq<string>
    requires i <= |t|
    decreases |t| - i
  {
    if i == |t| then []
    else (if MatchesAt(t, i) then [t[i..i + 5]] else []) + EveryMatchFrom(t, i + 1)
  }

  /** Fewer than five characters from i on hold no match. */
  lemma {:induction false} NoMatchInShortTail(t: string, i: nat)
    requires i <= |t| && |t| - i < 5
    ensures EveryMatchFrom(t, i) == []
    decreases |t| - i
  {
    if i < |t| {
      NoMatchInShortTail(t, i + 1);
    }
  }

  /** The reference reading passes over positions where no match starts. */
  lemma {:induction false} EveryMatchSkip(t: string, i: nat, j: nat)
    requires i <= j <= |t|
    requires forall p :: i <= p < j ==> !MatchesAt(t, p)
    ensures EveryMatchFrom(t, i) == EveryMatchFrom(t, j)
    decreases j - i
  {
    if i < j {
      EveryMatchSkip(t, i + 1, j);
    }
  }

  /**
   * Two matches can never overlap, because no character inside a match after
   * its first is a `p`; so resuming after each match, as `re.findall` does,
   * finds the match at every position where the pattern matches.
   */
  lemma {:induction false} FindAllIsEveryMatch(t: string, i: nat)
    requires i <= |t|
    ensures FindAllFrom(t, i) == EveryMatchFrom(t, i)
    decreases |t| - i
  {
    if |t| - i < 5 {
      NoMatchInShortTail(t, i);
    } else if MatchesAt(t, i) {
      FindAllIsEveryMatch(t, i + 5);
      assert !MatchesAt(t, i + 1) && !MatchesAt(t, i + 2) && !MatchesAt(t, i + 3) && !MatchesAt(t, i + 4);
      EveryMatchSkip(t, i + 1, i + 5);
    } else {
      FindAllIsEveryMatch(t, i + 1);
    }
  }

  /** The reference reading is empty exactly when no position from i on starts a match. */
  lemma {:induction false} EveryMatchEmpty(t: string, i: nat)
    requires i <= |t|
    ensures EveryMatchFrom(t, i) == [] <==> forall j :: i <= j < |t| ==> !MatchesAt(t, j)
    decreases |t| - i
  {
    if i < |t| {
      EveryMatchEmpty(t, i + 1);
    }
  }

  /** `re.findall` finds nothing exactly when no position of t starts a match. */
  lemma NoMatchesIff(t: string)
    ensures Matches(t) == [] <==> forall j :: 0 <= j < |t| ==> !MatchesAt(t, j)
  {
    FindAllIsEveryMatch(t, 0);
    EveryMatchEmpty(t, 0);
  }

  /** The scan for `re.findall`, collecting the matches in `found`. */
  method FindAll(t: string) returns (found: seq<string>)
    ensures found == Matches(t)
  {
    found := [];
    var i := 0;
    while |t| - i >= 5
      invariant 0 <= i <= |t|
      invariant found + FindAllFrom(t, i) == Matches(t)
      decreases |t| - i
    {
      if MatchesAt(t, i) {
        found := found + [t[i..i + 5]];
        i := i + 5;
      } else {
        i := i + 1;
      }
    }
  }

  /** Prepending text to a string shifts where the scan stands, not what it finds. */
  lemma {:induction false} FindAllShift(prefix: string, t: string, i: nat)
    requires i <= |t|
    ensures FindAllFrom(prefix + t, |prefix| + i) == FindAllFrom(t, i)
    decreases |t| - i
  {
    var u := prefix + t;
    assert u[|prefix| + i..] == t[i..];
    if |t| - i >= 5 {
      assert MatchesAt(u, |prefix| + i) == MatchesAt(t, i);
      if MatchesAt(t, i) {
        assert u[|prefix| + i..|prefix| + i + 5] == t[i..i + 5];
        FindAllShift(prefix, t, i + 5);
      } else {
        FindAllShift(prefix, t, i + 1);
      }
    }
  }

  /** A match at the front is found first, and the scan then reads the rest alone. */
  lemma MatchesAfterPair(m: string, t: string)
    requires IsStatusPair(m)
    ensures Matches(m + t) == [m] + Matches(t)
  {
    assert MatchesAt(m + t, 0);
    assert (m + t)[0..5] == m;
    FindAllShift(m, t, 0);
  }

  /** A leading character other than `p` starts no match. */
  lemma MatchesAfterOther(c: char, t: string)
    requires c != 'p'
    ensures Matches([c] + t) == Matches(t)
  {
    FindAllShift([c], t, 0);
  }

  /** The scan passes over positions where no match starts without finding anything. */
  lemma {:induction false} SkipNoMatch(t: string, i: nat, j: nat)
    requires i <= j <= |t|
    requires forall p :: i <= p < j ==> !MatchesAt(t, p)
    ensures FindAllFrom(t, i) == FindAllFrom(t, j)
    decreases j - i
  {
    if i < j {
      SkipNoMatch(t, i + 1, j);
    }
  }

  /** Python's `"-" * n`. */
  function Repeat(c: char, n: nat): (r: string)
    ensures |r| == n
    ensures forall k :: 0 <= k < n ==> r[k] == c
  {
    if n == 0 then "" else [c] + Repeat(c, n - 1)
  }

  /** The report's two header lines: a title and a rule of 21 dashes. */
  const Header: string := "current outlet status\n" + Repeat('-', 21) + "\n"

  /** The parser's `state` dictionary: state digit to power name. */
  const PowerName: map<string, string> := map["0" := "off", "1" := "on"]

  /** One report line, for an outlet digit and a power name. */
  function Row(outlet: char, power: string): string
  {
    "outlet: " + [outlet] + " power: " + power + "\n"
  }

  /** The report line of one match: its outlet digit as it stands, its state digit named. */
  function StatusLine(m: string): Result<string>
    requires IsStatusPair(m)
  {
    match Lookup(PowerName, [m[4]])
    case Ok(power) => Ok(Row(m[2], power))
    case Err(f) => Err(f)
  }

  /** The report lines of the matches in order, or the KeyError of the first unknown state digit. */
  function StatusLines(ms: seq<string>): Result<string>
    requires forall k :: 0 <= k < |ms| ==> IsStatusPair(ms[k])
  {
    if ms == [] then Ok("")
    else
      match StatusLines(ms[..|ms| - 1])
      case Err(f) => Err(f)
      case Ok(lines) =>
        match StatusLine(ms[|ms| - 1])
        case Err(f) => Err(f)
        case Ok(line) => Ok(lines + line)
  }

  /** Once a prefix of the matches fails, the whole list fails with the same KeyError. */
  lemma {:induction false} StatusLinesFailFast(ms: seq<string>, k: nat)
    requires forall j :: 0 <= j < |ms| ==> IsStatusPair(ms[j])
    requires k <= |ms| && StatusLines(ms[..k]).Err?
    ensures StatusLines(ms) == StatusLines(ms[..k])
    decreases |ms| - k
  {
    if k < |ms| {
      assert ms[..k + 1][..k] == ms[..k];
      StatusLinesFailFast(ms, k + 1);
    } else {
      assert ms[..k] == ms;
    }
  }

  /** What `parse_response(t)` returns, or the KeyError it raises. */
  function ParseStatus(t: string): Result<string>
  {
    var ms := Matches(t);
    if ms == [] then Ok("")
    else
      match StatusLines(ms)
      case Err(f) => Err(f)
      case Ok(lines) => Ok(Header + lines)
  }

  /** A match whose state digit the `state` dictionary does not know. */
  predicate BadState(m: string)
    requires IsStatusPair(m)
  {
    m[4] != '0' && m[4] != '1'
  }

  /** The power name of a known state digit: `0` is off, `1` is on. */
  function PowerWord(d: char): string
    requires d == '0' || d == '1'
  {
    if d == '0' then "off" else "on"
  }

  /** The report body a reader expects: one line per match, first match first. */
  function Report(ms: seq<string>): string
    requires forall k :: 0 <= k < |ms| ==> IsStatusPair(ms[k]) && !BadState(ms[k])
  {
    if ms == [] then ""
    else
      assert IsStatusPair(ms[0]) && !BadState(ms[0]);
      Row(ms[0][2], PowerWord(ms[0][4])) + Report(ms[1..])
  }

  /** Adding one match at the end adds its line at the end of the report. */
  lemma {:induction false} ReportSnoc(ms: seq<string>, m: string)
    requires forall k :: 0 <= k < |ms| ==> IsStatusPair(ms[k]) && !BadState(ms[k])
    requires IsStatusPair(m) && !BadState(m)
    ensures Report(ms + [m]) == Report(ms) + Row(m[2], PowerWord(m[4]))
  {
    if ms == [] {
      assert [m][1..] == [];
    } else {
      assert (ms + [m])[1..] == ms[1..] + [m];
      ReportSnoc(ms[1..], m);
    }
  }

  /**
   * The report lines succeed exactly when every state digit is known, and then
   * they are the expected report.
   */
  lemma {:induction false} StatusLinesOk(ms: seq<string>)
    requires forall k :: 0 <= k < |ms| ==> IsStatusPair(ms[k])
    ensures StatusLines(ms).Ok? <==> forall k :: 0 <= k < |ms| ==> !BadState(ms[k])
    ensures StatusLines(ms).Ok? ==> StatusLines(ms).value == Report(ms)
  {
    if ms != [] {
      var init, last := ms[..|ms| - 1], ms[|ms| - 1];
      assert ms == init + [last];
      StatusLinesOk(init);
      if StatusLines(init).Ok? && !BadState(last) {
        ReportSnoc(init, last);
      }
    }
  }

  /** When the report lines fail, the KeyError names the first unknown state digit. */
  lemma {:induction false} StatusLinesFirstFailure(ms: seq<string>)
    requires forall k :: 0 <= k < |ms| ==> IsStatusPair(ms[k])
    requires StatusLines(ms).Err?
    ensures exists k ::
      && 0 <= k < |ms| && BadState(ms[k]) && (forall j :: 0 <= j < k ==> !BadState(ms[j]))
      && StatusLines(ms).failure == KeyError([ms[k][4]])
  {
    var init, last := ms[..|ms| - 1], ms[|ms| - 1];
    if StatusLines(init).Err? {
      StatusLinesFirstFailure(init);
      var k :| 0 <= k < |init| && BadState(init[k]) && (forall j :: 0 <= j < k ==> !BadState(init[j]))
        && StatusLines(init).failure == KeyError([init[k][4]]);
      assert ms[k] == init[k];
      assert forall j :: 0 <= j < k ==> ms[j] == init[j];
    } else {
      StatusLinesOk(init);
      assert forall j :: 0 <= j < |ms| - 1 ==> ms[j] == init[j];
      assert BadState(ms[|ms| - 1]);
    }
  }

  /** parse_response returns the empty string exactly when no position of the text starts a match. */
  lemma ParseStatusEmptyIff(t: string)
    ensures ParseStatus(t) == Ok("") <==> forall j :: 0 <= j < |t| ==> !MatchesAt(t, j)
  {
    NoMatchesIff(t);
    assert |Header| == 44;
  }

  /**
   * When every matched state digit is 0 or 1, parse_response returns the two
   * header lines and then one line per match, in the order of the text, each
   * with the outlet digit as found and the state named; when there is no match
   * it returns the empty string.
   */
  lemma ParseStatusReport(t: string)
    requires forall k :: 0 <= k < |Matches(t)| ==> !BadState(Matches(t)[k])
    ensures ParseStatus(t) == Ok(if Matches(t) == [] then "" else Header + Report(Matches(t)))
  {
    StatusLinesOk(Matches(t));
  }

  /**
   * parse_response raises KeyError exactly when some matched state digit is
   * neither 0 nor 1, and the key is the first such digit in the text.
   */
  lemma ParseStatusFails(t: string)
    ensures ParseStatus(t).Err? <==> exists k :: 0 <= k < |Matches(t)| && BadState(Matches(t)[k])
    ensures var ms := Matches(t); ParseStatus(t).Err? ==>
      exists k :: 0 <= k < |ms| && BadState(ms[k]) && (forall j :: 0 <= j < k ==> !BadState(ms[j]))
        && ParseStatus(t).failure == KeyError([ms[k][4]])
  {
    StatusLinesOk(Matches(t));
    if ParseStatus(t).Err? {
      StatusLinesFirstFailure(Matches(t));
    }
  }

  /** The report lines of one more match: those so far, then its own line. */
  lemma StatusLinesStep(ms: seq<string>, k: nat, lines: string)
    requires forall j :: 0 <= j < |ms| ==> IsStatusPair(ms[j])
    requires k < |ms| && StatusLines(ms[..k]) == Ok(lines)
    ensures StatusLines(ms[..k + 1]) == match StatusLine(ms[k])
      case Ok(line) => Ok(lines + line)
      case Err(f) => Err(f)
  {
    assert ms[..k + 1][..k] == ms[..k];
  }

  /** Concatenation regroups freely. */
  lemma ConcatAssoc(a: string, b: string, c: string)
    ensures a + b + c == a + (b + c)
  {
  }

  /** parse_response, accumulating the report in `resp` as the source does. */
  method ParseResponse(responseTxt: string) returns (r: Result<string>)
    ensures r == ParseStatus(responseTxt)
  {
    var resp := "";
    var state := PowerName;
    var outletStatus := FindAll(responseTxt);
    if |outletStatus| > 0 {
      resp := resp + "current outlet status\n";
      resp := resp + Repeat('-', 21) + "\n";
      ghost var lines := "";
      for k := 0 to |outletStatus|
        invariant resp == Header + lines
        invariant StatusLines(outletStatus[..k]) == Ok(lines)
      {
        var s := outletStatus[k];
        var power := Lookup(state, [s[4]]);
        StatusLinesStep(outletStatus, k, lines);
        if power.Err? {
          StatusLinesFailFast(outletStatus, k + 1);
          return Err(power.failure);
        }
        var line := "outlet: " + [s[2]] + " power: " + power.value + "\n";
        ConcatAssoc(Header, lines, line);
        resp := resp + line;
        lines := lines + line;
      }
      assert outletStatus[..|outletStatus|] == outletStatus;
    }
    return Ok(resp);
  }
}
