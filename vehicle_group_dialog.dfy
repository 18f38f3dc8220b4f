/**
 * `VehicleGroupDialog`: the text form of a vehicle group's movements, one `name<TAB>count`
 * line per destination with the names in order, read back by splitting each line on spaces,
 * tabs and semicolons; and the rule that fixes the group's vehicle count when the dialog is
 * accepted.
 */
module Dialog {
  import opened Wrappers
  import opened Lists
  import opened Moves

  // ---- Text primitives of the Java library ----

  /** The delimiters of `new StringTokenizer(line, " \t;")`. */
  predicate IsDelimiter(c: char) {
    c == ' ' || c == '\t' || c == ';'
  }

  /** The characters that end a line for `BufferedReader.readLine`. */
  predicate IsBreak(c: char) {
    c == '\n' || c == '\r'
  }

  /** No character of `s` satisfies the test. */
  predicate NoDelimiter(s: string) {
    forall k | 0 <= k < |s| :: !IsDelimiter(s[k])
  }

  predicate NoBreak(s: string) {
    forall k | 0 <= k < |s| :: !IsBreak(s[k])
  }

  /** The first line break at or after `i`, or the end of the text. */
  function LineEnd(text: string, i: nat): (r: nat)
    requires i <= |text|
    ensures i <= r <= |text| && (r < |text| ==> IsBreak(text[r]))
    ensures forall k | i <= k < r :: !IsBreak(text[k])
    decreases |text| - i
  {
    if i == |text| || IsBreak(text[i]) then i else LineEnd(text, i + 1)
  }

  /**
   * The lines that `readLine` returns, in order, until it returns `null`: a line ends at a
   * line feed, a carriage return, or a carriage return followed by a line feed; a final line
   * without an end is returned too, and an empty text has no lines.
   */
  function Lines(text: string): (r: seq<string>)
    ensures forall k | 0 <= k < |r| :: NoBreak(r[k])
    decreases |text|
  {
    if text == [] then []
    else
      var e := LineEnd(text, 0);
      if e == |text| then [text]
      else
        var next := if text[e] == '\r' && e + 1 < |text| && text[e + 1] == '\n' then e + 2 else e + 1;
        [text[..e]] + Lines(text[next..])
  }

  /** The first delimiter at or after `i`, or the end of the line. */
  function TokenEnd(s: string, i: nat): (r: nat)
    requires i <= |s|
    ensures i <= r <= |s| && (r < |s| ==> IsDelimiter(s[r]))
    ensures forall k | i <= k < r :: !IsDelimiter(s[k])
    decreases |s| - i
  {
    if i == |s| || IsDelimiter(s[i]) then i else TokenEnd(s, i + 1)
  }

  /** The tokens of `new StringTokenizer(s, " \t;")`: the maximal runs of non-delimiters. */
  function Tokens(s: string): (r: seq<string>)
    ensures forall k | 0 <= k < |r| :: r[k] != [] && NoDelimiter(r[k])
    decreases |s|
  {
    if s == [] then []
    else if IsDelimiter(s[0]) then Tokens(s[1..])
    else
      var e := TokenEnd(s, 0);
      [s[..e]] + Tokens(s[e..])
  }

  const IntMin: int := -0x8000_0000
  const IntMax: int := 0x7fff_ffff

  /** An ASCII decimal digit; `Integer.parseInt` also accepts the other Unicode decimal digits. */
  predicate IsDigit(c: char) {
    '0' <= c <= '9'
  }

  predicate AllDigits(s: string) {
    forall k | 0 <= k < |s| :: IsDigit(s[k])
  }

  /** The number that a string of decimal digits stands for. */
  function DigitsValue(s: string): nat
    requires AllDigits(s)
  {
    if s == [] then 0
    else
      assert IsDigit(s[|s| - 1]);
      DigitsValue(s[..|s| - 1]) * 10 + (s[|s| - 1] as int - '0' as int)
  }

  /**
   * `Integer.parseInt(s)`: an optional sign followed by at least one decimal digit, whose
   * value fits in 32 bits; anything else throws `NumberFormatException` (`None`).
   */
  function ParseInt(s: string): Option<int> {
    if s == [] then None
    else
      var digits := if s[0] == '-' || s[0] == '+' then s[1..] else s;
      if digits == [] || !AllDigits(digits) then None
      else
        var v := if s[0] == '-' then -(DigitsValue(digits) as int) else DigitsValue(digits) as int;
        if IntMin <= v <= IntMax then Some(v) else None
  }

  function Digit(d: nat): (c: char)
    requires d < 10
    ensures IsDigit(c) && c as int - '0' as int == d
  {
    ('0' as int + d) as char
  }

  /** The decimal digits of `n`, without leading zeros. */
  function Decimal(n: nat): (r: string)
    ensures r != [] && AllDigits(r)
    decreases n
  {
    if n < 10 then [Digit(n)] else Decimal(n / 10) + [Digit(n % 10)]
  }

  /** `StringBuilder.append(int)`: the decimal digits, after a minus sign for a negative number. */
  function IntText(n: int): string {
    if n < 0 then "-" + Decimal(-n) else Decimal(n)
  }

  /**
   * Strings compared character by character, by Unicode scalar value, a prefix first.
   * This is `String.compareTo` for names of Basic Multilingual Plane characters; Java
   * compares UTF-16 code units, which orders supplementary characters differently.
   */
  predicate Less(a: string, b: string)
    decreases |a|
  {
    if a == [] then b != []
    else if b == [] then false
    else if a[0] != b[0] then a[0] < b[0]
    else Less(a[1..], b[1..])
  }

  // ---- The text of the movements ----

  /** One line of `formatMovements`, without its line feed. */
  function EntryLine(name: string, count: int): string {
    name + "\t" + IntText(count)
  }

  /** The lines of `formatMovements` for the names, in order, without their line feeds. */
  function Entries(names: seq<string>, m: map<string, int>): (r: seq<string>)
    requires forall k | 0 <= k < |names| :: names[k] in m
    ensures |r| == |names| && forall k | 0 <= k < |r| :: r[k] == EntryLine(names[k], m[names[k]])
  {
    seq(|names|, k requires 0 <= k < |names| => EntryLine(names[k], m[names[k]]))
  }

  /** Lines, each followed by a line feed. */
  function Concat(ls: seq<string>): string {
    if ls == [] then "" else ls[0] + "\n" + Concat(ls[1..])
  }

  /** A movements map that `formatMovements` writes and `parseMovements` reads back unchanged. */
  predicate Printable(m: map<string, int>) {
    forall k | k in m :: k != [] && NoDelimiter(k) && NoBreak(k) && 0 < m[k] <= IntMax
  }

  /** What one line does to the movements read so far. */
  function ParseLine(acc: map<string, int>, line: string): map<string, int> {
    var tokens := Tokens(line);
    if |tokens| < 2 then acc
    else
      match ParseInt(tokens[1])
      case None => acc
      case Some(n) => if n > 0 then acc[tokens[0] := n] else acc
  }

  /** The movements after the lines, in order, starting from none. */
  function ParseAll(lines: seq<string>): map<string, int> {
    if lines == [] then map[] else ParseLine(ParseAll(lines[..|lines| - 1]), lines[|lines| - 1])
  }

  /** The movements that `parseMovements` reads from a text. */
  function Parsed(text: string): map<string, int> {
    ParseAll(Lines(text))
  }

  /** `Collections.sort` of the names: every name once, in increasing order. */
  ghost function Ordered(names: set<string>): (r: seq<string>)
    decreases |names|
  {
    if names == {} then []
    else
      MinimumExists(names);
      var least :| least in names && forall x | x in names && x != least :: Less(least, x);
      [least] + Ordered(names - {least})
  }

  /** The text that `formatMovements` writes. */
  ghost function Formatted(m: map<string, int>): string {
    OrderedMembers(m.Keys);
    Concat(Entries(Ordered(m.Keys), m))
  }

  /** The vehicle count that accepting the dialog leaves, from the two text fields. */
  ghost function AcceptedCount(countText: string, movementsText: string): int {
    var typed := match ParseInt(countText) case Some(v) => v case None => 0;
    var total := Total(Parsed(movementsText));
    if total > typed then total else typed
  }

  // ---- The dialog ----

  class VehicleGroupDialog {
    var countText: string
    var movementsText: string
    var vehicleCount: int
    var movements: Movements?
    var accepted: bool

    constructor ()
      ensures countText == [] && movementsText == [] && movements == null && !accepted
    {
      countText, movementsText := [], [];
      vehicleCount := 0;
      movements := null;
      accepted := false;
    }

    /** `formatMovements`: the movements into the text area, when there are any. */
    method FormatMovements()
      modifies this`movementsText
      ensures movements != null ==> movementsText == Formatted(movements.entries)
      ensures movements == null ==> movementsText == old(movementsText)
    {
      if movements != null {
        movementsText := Format(movements.entries);
      }
    }

    /** `parseMovements`: new movements read from the text area, line by line. */
    method ParseMovements()
      modifies this`movements
      ensures movements != null && fresh(movements) && movements.entries == Parsed(movementsText)
    {
      var m := new Movements();
      var lines := Lines(movementsText);
      var i := 0;
      while i < |lines|
        invariant i <= |lines| && m.entries == ParseAll(lines[..i])
      {
        assert lines[..i + 1][..i] == lines[..i];
        var tokens := Tokens(lines[i]);
        if |tokens| >= 2 {
          var parsed := ParseInt(tokens[1]);
          if parsed.Some? && parsed.value > 0 {
            m.Put(tokens[0], parsed.value);
          }
        }
        i := i + 1;
      }
      assert lines[..i] == lines;
      movements := m;
    }

    /**
     * `okButtonActionPerformed`: the typed count, or 0 when it is not a number, raised to the
     * movements' vehicle count when that is larger; then the dialog is accepted.
     */
    method Accept()
      modifies this`vehicleCount, this`movements, this`accepted
      ensures vehicleCount == AcceptedCount(countText, movementsText) && accepted
      ensures movements != null && fresh(movements) && movements.entries == Parsed(movementsText)
    {
      var parsed := ParseInt(countText);
      vehicleCount := if parsed.Some? then parsed.value else 0;
      ParseMovements();
      var total := movements.GetVehicleCount();
      if total > vehicleCount {
        vehicleCount := total;
      }
      accepted := true;
    }
  }

  /** `formatMovements` on the movements: the names sorted, then the loop over them. */
  method Format(m: map<string, int>) returns (text: string)
    ensures text == Formatted(m)
  {
    var names := SortNames(m.Keys);
    OrderedMembers(m.Keys);
    text := FormatNames(names, m);
  }

  /** The loop of `formatMovements`: one `name<TAB>count` line per name, in the given order. */
  method FormatNames(names: seq<string>, m: map<string, int>) returns (text: string)
    requires forall k | 0 <= k < |names| :: names[k] in m
    ensures text == Concat(Entries(names, m))
  {
    text := "";
    var i := 0;
    while i < |names|
      invariant i <= |names| && text == Concat(Entries(names[..i], m))
    {
      var line := EntryLine(names[i], m[names[i]]);
      EntriesSnoc(names, i, m);
      ConcatSnoc(Entries(names[..i + 1], m));
      text := text + line + "\n";
      i := i + 1;
    }
    assert names[..i] == names;
  }

  /** One more name gives one more entry line. */
  lemma EntriesSnoc(names: seq<string>, i: nat, m: map<string, int>)
    requires i < |names| && forall k | 0 <= k < |names| :: names[k] in m
    ensures Entries(names[..i + 1], m) == Entries(names[..i], m) + [EntryLine(names[i], m[names[i]])]
  {
    var a, b := Entries(names[..i + 1], m), Entries(names[..i], m) + [EntryLine(names[i], m[names[i]])];
    forall k | 0 <= k <= i ensures a[k] == b[k] {
      assert names[..i + 1][k] == names[k];
      if k < i {
        assert names[..i][k] == names[k];
      }
    }
  }

  /** Appending a line appends it and its line feed. */
  lemma {:induction false} ConcatSnoc(ls: seq<string>)
    requires ls != []
    ensures Concat(ls) == Concat(ls[..|ls| - 1]) + ls[|ls| - 1] + "\n"
  {
    var n := |ls| - 1;
    if n > 0 {
      ConcatSnoc(ls[1..]);
      assert ls[1..][..n - 1] == ls[..n][1..];
      var head := ls[0] + "\n";
      var middle := Concat(ls[..n][1..]);
      var tail := ls[n] + "\n";
      assert head + (middle + tail) == head + middle + tail;
    }
  }

  /** `Collections.sort` on the names of the movements. */
  method SortNames(names: set<string>) returns (r: seq<string>)
    ensures r == Ordered(names)
  {
    r := [];
    var rest := names;
    while rest != {}
      invariant rest <= names && r + Ordered(rest) == Ordered(names)
      decreases |rest|
    {
      var least := Least(rest);
      OrderedHead(rest, least);
      r := r + [least];
      rest := rest - {least};
    }
  }

  /** The least of a non-empty set of names. */
  method Least(names: set<string>) returns (least: string)
    requires names != {}
    ensures least in names && forall x | x in names && x != least :: Less(least, x)
  {
    least :| least in names;
    var others := names - {least};
    while others != {}
      invariant others <= names && least in names && least !in others
      invariant forall x | x in names - others && x != least :: Less(least, x)
      decreases |others|
    {
      var x :| x in others;
      if Less(x, least) {
        forall y | y in names - others && y != x ensures Less(x, y) {
          if y != least {
            LessTransitive(x, least, y);
          }
        }
        least := x;
      } else {
        LessTotal(x, least);
      }
      others := others - {x};
    }
  }

  // ---- The order of names ----

  lemma {:induction false} LessIrreflexive(a: string)
    ensures !Less(a, a)
    decreases |a|
  {
    if a != [] {
      LessIrreflexive(a[1..]);
    }
  }

  lemma {:induction false} LessTransitive(a: string, b: string, c: string)
    requires Less(a, b) && Less(b, c)
    ensures Less(a, c)
    decreases |a|
  {
    if a != [] && b != [] && c != [] && a[0] == b[0] && b[0] == c[0] {
      LessTransitive(a[1..], b[1..], c[1..]);
    }
  }

  lemma {:induction false} LessTotal(a: string, b: string)
    requires a != b
    ensures Less(a, b) || Less(b, a)
    decreases |a|
  {
    if a != [] && b != [] && a[0] == b[0] {
      assert a == [a[0]] + a[1..] && b == [b[0]] + b[1..];
      LessTotal(a[1..], b[1..]);
    }
  }

  lemma {:induction false} LessAsymmetric(a: string, b: string)
    requires Less(a, b)
    ensures !Less(b, a)
    decreases |a|
  {
    if a != [] && b != [] && a[0] == b[0] {
      LessAsymmetric(a[1..], b[1..]);
    }
  }

  /** Every non-empty finite set of names has a least one. */
  lemma {:induction false} MinimumExists(names: set<string>)
    requires names != {}
    ensures exists least | least in names :: forall x | x in names && x != least :: Less(least, x)
    decreases |names|
  {
    var y :| y in names;
    var rest := names - {y};
    if rest == {} {
      assert names == {y};
    } else {
      MinimumExists(rest);
      var m :| m in rest && forall x | x in rest && x != m :: Less(m, x);
      if Less(y, m) {
        forall x | x in names && x != y ensures Less(y, x) {
          if x != m {
            LessTransitive(y, m, x);
          }
        }
      } else {
        LessTotal(y, m);
        assert forall x | x in names && x != m :: Less(m, x);
      }
    }
  }

  /** The least name is the one `Ordered` puts first. */
  lemma OrderedHead(names: set<string>, least: string)
    requires least in names && forall x | x in names && x != least :: Less(least, x)
    ensures Ordered(names) == [least] + Ordered(names - {least})
  {
    MinimumExists(names);
    var first :| first in names && (forall x | x in names && x != first :: Less(first, x))
                 && Ordered(names) == [first] + Ordered(names - {first});
    if first != least {
      LessAsymmetric(least, first);
    }
  }

  /** The sorted names are exactly the names, each once. */
  lemma {:induction false} OrderedMembers(names: set<string>)
    ensures var r := Ordered(names);
      && |r| == |names| && (forall k | 0 <= k < |r| :: r[k] in names) && forall x | x in names :: x in r
    decreases |names|
  {
    if names != {} {
      MinimumExists(names);
      var least :| least in names && forall x | x in names && x != least :: Less(least, x);
      OrderedHead(names, least);
      OrderedMembers(names - {least});
    }
  }

  /** Names in strictly increasing order. */
  predicate Increasing(r: seq<string>) {
    forall i, j | 0 <= i < j < |r| :: Less(r[i], r[j])
  }

  /** A name below every name of an increasing list can go in front of it. */
  lemma IncreasingCons(least: string, tail: seq<string>)
    requires Increasing(tail) && forall k | 0 <= k < |tail| :: Less(least, tail[k])
    ensures Increasing([least] + tail)
  {
    var r := [least] + tail;
    forall i, j | 0 <= i < j < |r| ensures Less(r[i], r[j]) {
      assert r[j] == tail[j - 1];
      if i > 0 {
        assert r[i] == tail[i - 1];
      }
    }
  }

  /** The sorted names are in strictly increasing order. */
  lemma {:induction false} OrderedSorted(names: set<string>)
    ensures Increasing(Ordered(names))
    decreases |names|
  {
    if names != {} {
      MinimumExists(names);
      var least :| least in names && forall x | x in names && x != least :: Less(least, x);
      OrderedHead(names, least);
      var rest := names - {least};
      OrderedSorted(rest);
      OrderedMembers(rest);
      IncreasingCons(least, Ordered(rest));
    }
  }

  /** So each name is there once. */
  lemma OrderedDistinct(names: set<string>)
    ensures Distinct(Ordered(names))
  {
    var r := Ordered(names);
    OrderedSorted(names);
    forall i, j | 0 <= i < j < |r| ensures r[i] != r[j] {
      assert Less(r[i], r[j]);
      LessIrreflexive(r[i]);
    }
  }

  // ---- Numbers ----

  /** The digits of a number stand for that number. */
  lemma {:induction false} DecimalValue(n: nat)
    ensures DigitsValue(Decimal(n)) == n
    decreases n
  {
    if n >= 10 {
      DecimalValue(n / 10);
      var s := Decimal(n);
      assert s[..|s| - 1] == Decimal(n / 10);
    }
  }

  /** `Integer.parseInt` reads back the text of any 32-bit number. */
  lemma ParseIntText(n: int)
    requires IntMin <= n <= IntMax
    ensures ParseInt(IntText(n)) == Some(n)
  {
    if n < 0 {
      DecimalValue(-n);
      assert IntText(n)[1..] == Decimal(-n);
    } else {
      DecimalValue(n);
      assert IsDigit(Decimal(n)[0]);
    }
  }

  // ---- Parsing ----

  /** An empty text has no lines, so it gives no movements. */
  lemma ParsedEmpty()
    ensures Parsed("") == map[]
  {
  }

  /**
   * What `parseMovements` reads: every name is a non-empty token without delimiters or line
   * breaks, and every count is positive and fits in 32 bits.
   */
  lemma {:induction false} ParseAllPrintable(lines: seq<string>)
    requires forall k | 0 <= k < |lines| :: NoBreak(lines[k])
    ensures Printable(ParseAll(lines))
  {
    if lines != [] {
      var init := lines[..|lines| - 1];
      ParseAllPrintable(init);
      var line := lines[|lines| - 1];
      var tokens := Tokens(line);
      if |tokens| >= 2 {
        TokensNoBreak(line);
      }
    }
  }

  lemma ParsedPrintable(text: string)
    ensures Printable(Parsed(text))
  {
    ParseAllPrintable(Lines(text));
  }

  /** Tokens of a line without breaks have none either. */
  lemma {:induction false} TokensNoBreak(s: string)
    requires NoBreak(s)
    ensures forall k | 0 <= k < |Tokens(s)| :: NoBreak(Tokens(s)[k])
    decreases |s|
  {
    if s != [] {
      if IsDelimiter(s[0]) {
        TokensNoBreak(s[1..]);
      } else {
        var e := TokenEnd(s, 0);
        TokensNoBreak(s[e..]);
        assert Tokens(s) == [s[..e]] + Tokens(s[e..]);
      }
    }
  }

  /**
   * A line counts only through its first two tokens: lines that agree on them, or that both
   * have fewer than two, do the same to the movements.
   */
  lemma FirstTwoTokens(acc: map<string, int>, a: string, b: string)
    requires |Tokens(a)| >= 2 && |Tokens(b)| >= 2 && Tokens(a)[..2] == Tokens(b)[..2]
    ensures ParseLine(acc, a) == ParseLine(acc, b)
  {
    assert Tokens(a)[0] == Tokens(a)[..2][0] && Tokens(a)[1] == Tokens(a)[..2][1];
  }

  /** A later line for the same name replaces the count of an earlier one. */
  lemma LaterLineWins(lines: seq<string>, name: string, n: int, line: string)
    requires |Tokens(line)| >= 2 && Tokens(line)[0] == name && ParseInt(Tokens(line)[1]) == Some(n) && n > 0
    ensures ParseAll(lines + [line]) == ParseAll(lines)[name := n]
    ensures ParseAll(lines + [line])[name] == n
  {
    assert (lines + [line])[..|lines|] == lines;
  }

  // ---- The round trip ----

  /** A run without delimiters followed by a delimiter is the first token. */
  lemma TokensOfRun(run: string, d: char, rest: string)
    requires run != [] && NoDelimiter(run) && IsDelimiter(d)
    ensures Tokens(run + [d] + rest) == [run] + Tokens(rest)
  {
    var s := run + [d] + rest;
    TokenEndFrom(s, 0, |run|);
    assert s[..|run|] == run;
    assert s[|run|..][1..] == rest;
  }

  /** A run without delimiters is a single token. */
  lemma TokensOfLast(run: string)
    requires run != [] && NoDelimiter(run)
    ensures Tokens(run) == [run]
  {
    TokenEndFrom(run, 0, |run|);
    assert run[..|run|] == run && run[|run|..] == [];
  }

  /** The tokens of `name<TAB>count` are the name and the count's text. */
  lemma PairTokens(name: string, count: int)
    requires name != [] && NoDelimiter(name)
    ensures Tokens(EntryLine(name, count)) == [name, IntText(count)]
  {
    IntTextPlain(count);
    TokensOfRun(name, '\t', IntText(count));
    assert EntryLine(name, count) == name + ['\t'] + IntText(count);
    TokensOfLast(IntText(count));
  }

  lemma {:induction false} TokenEndFrom(s: string, i: nat, e: nat)
    requires i <= e <= |s| && (e < |s| ==> IsDelimiter(s[e]))
    requires forall k | i <= k < e :: !IsDelimiter(s[k])
    ensures TokenEnd(s, i) == e
    decreases e - i
  {
    if i < e {
      TokenEndFrom(s, i + 1, e);
    }
  }

  lemma {:induction false} LineEndFrom(s: string, i: nat, e: nat)
    requires i <= e <= |s| && (e < |s| ==> IsBreak(s[e]))
    requires forall k | i <= k < e :: !IsBreak(s[k])
    ensures LineEnd(s, i) == e
    decreases e - i
  {
    if i < e {
      LineEndFrom(s, i + 1, e);
    }
  }

  /** The text of a number has no line breaks and no delimiters. */
  lemma IntTextPlain(n: int)
    ensures IntText(n) != [] && NoBreak(IntText(n)) && NoDelimiter(IntText(n))
  {
    var d := Decimal(if n < 0 then -n else n);
    assert forall k | 0 <= k < |d| :: IsDigit(d[k]);
  }

  /** A line without breaks, then a line feed, is the first line. */
  lemma LinesOfFirst(line: string, rest: string)
    requires NoBreak(line)
    ensures Lines(line + "\n" + rest) == [line] + Lines(rest)
  {
    var text := line + "\n" + rest;
    LineEndFrom(text, 0, |line|);
    assert text[..|line|] == line && text[|line| + 1..] == rest;
  }

  /** An entry line has no breaks when its name has none. */
  lemma EntryNoBreak(name: string, count: int)
    requires NoBreak(name)
    ensures NoBreak(EntryLine(name, count))
  {
    IntTextPlain(count);
    var t := IntText(count);
    var line := EntryLine(name, count);
    forall k | 0 <= k < |line| ensures !IsBreak(line[k]) {
      if k < |name| {
        assert line[k] == name[k];
      } else if k > |name| {
        assert line[k] == t[k - |name| - 1];
      }
    }
  }

  /** `readLine` gives back lines without breaks that were each written with a line feed. */
  lemma {:induction false} LinesOfConcat(ls: seq<string>)
    requires forall k | 0 <= k < |ls| :: NoBreak(ls[k])
    ensures Lines(Concat(ls)) == ls
  {
    if ls != [] {
      LinesOfFirst(ls[0], Concat(ls[1..]));
      LinesOfConcat(ls[1..]);
    }
  }

  /** The entry lines of names without breaks have no breaks. */
  lemma EntriesNoBreak(names: seq<string>, m: map<string, int>)
    requires forall k | 0 <= k < |names| :: names[k] in m && NoBreak(names[k])
    ensures forall k | 0 <= k < |names| :: NoBreak(Entries(names, m)[k])
  {
    forall k | 0 <= k < |names| ensures NoBreak(Entries(names, m)[k]) {
      EntryNoBreak(names[k], m[names[k]]);
    }
  }

  /** One more line `name<TAB>count` sets the name's count. */
  lemma ParseEntry(before: map<string, int>, name: string, count: int)
    requires name != [] && NoDelimiter(name) && 0 < count <= IntMax
    ensures ParseLine(before, EntryLine(name, count)) == before[name := count]
  {
    PairTokens(name, count);
    ParseIntText(count);
  }

  /** The movements hold exactly the names, each with its count in `m`. */
  predicate Agrees(p: map<string, int>, names: seq<string>, m: map<string, int>) {
    && (forall x | x in p :: x in names && x in m && p[x] == m[x])
    && forall k | 0 <= k < |names| :: names[k] in p
  }

  /** The movements of lines `name<TAB>count` for the names: each name with its count. */
  lemma {:induction false} ParseEntries(lines: seq<string>, names: seq<string>, m: map<string, int>)
    requires Printable(m) && |lines| == |names|
    requires forall k | 0 <= k < |names| :: names[k] in m && lines[k] == EntryLine(names[k], m[names[k]])
    ensures Agrees(ParseAll(lines), names, m)
  {
    if lines != [] {
      var n := |lines| - 1;
      var before := ParseAll(lines[..n]);
      ParseEntries(lines[..n], names[..n], m);
      ParseEntry(before, names[n], m[names[n]]);
      assert ParseAll(lines) == ParseLine(before, lines[n]);
      ParseEntriesStep(before, names, names[..n], m);
    }
  }

  /** The step of `ParseEntries`: the last name joins the movements read so far. */
  lemma ParseEntriesStep(before: map<string, int>, names: seq<string>, init: seq<string>, m: map<string, int>)
    requires names != [] && init == names[..|names| - 1] && names[|names| - 1] in m
    requires Agrees(before, init, m)
    ensures Agrees(before[names[|names| - 1] := m[names[|names| - 1]]], names, m)
  {
    var after := before[names[|names| - 1] := m[names[|names| - 1]]];
    forall x | x in after ensures x in names {
      if x in init {
        var k :| 0 <= k < |init| && init[k] == x;
        assert names[k] == x;
      }
    }
    forall k | 0 <= k < |names| ensures names[k] in after {
      if k < |init| {
        assert names[k] == init[k];
      }
    }
  }

  /**
   * Round trip: `parseMovements` reads back what `formatMovements` wrote, for movements whose
   * names are non-empty and free of spaces, tabs, semicolons and line breaks, and whose
   * counts are positive 32-bit numbers.
   */
  lemma RoundTrip(m: map<string, int>)
    requires Printable(m)
    ensures Parsed(Formatted(m)) == m
  {
    var names := Ordered(m.Keys);
    OrderedMembers(m.Keys);
    EntriesNoBreak(names, m);
    LinesOfConcat(Entries(names, m));
    var lines := Lines(Formatted(m));
    ParseEntries(lines, names, m);
    AgreesAll(Parsed(Formatted(m)), names, m);
  }

  /** Movements that agree with `m` on a list holding every name of `m` are `m`. */
  lemma AgreesAll(p: map<string, int>, names: seq<string>, m: map<string, int>)
    requires Agrees(p, names, m) && forall x | x in m :: x in names
    ensures p == m
  {
    forall x | x in m ensures x in p {
      var k :| 0 <= k < |names| && names[k] == x;
    }
  }

  /** The text is one `name<TAB>count` line per movement, with the names in increasing order. */
  lemma FormattedLines(m: map<string, int>)
    requires forall k | k in m :: NoBreak(k)
    ensures var names, ls := Ordered(m.Keys), Lines(Formatted(m));
      && |ls| == |m| && |names| == |m|
      && (forall k | 0 <= k < |m| :: names[k] in m && ls[k] == EntryLine(names[k], m[names[k]]))
      && (forall x | x in m :: x in names)
      && forall i, j | 0 <= i < j < |m| :: Less(names[i], names[j])
  {
    OrderedMembers(m.Keys);
    OrderedSorted(m.Keys);
    EntriesNoBreak(Ordered(m.Keys), m);
    LinesOfConcat(Entries(Ordered(m.Keys), m));
  }

  // ---- The accepted count ----

  /**
   * The accepted count is the larger of the typed count (0 when it is not a number) and the
   * movements' vehicle count, so it is never below the number of destinations.
   */
  lemma AcceptedBounds(countText: string, movementsText: string)
    ensures var typed := match ParseInt(countText) case Some(v) => v case None => 0;
      var count := AcceptedCount(countText, movementsText);
      && count >= typed && count >= Total(Parsed(movementsText))
      && (count == typed || count == Total(Parsed(movementsText)))
      && count >= |Parsed(movementsText)|
  {
    ParsedPrintable(movementsText);
    TotalOfPositives(Parsed(movementsText));
  }
}
