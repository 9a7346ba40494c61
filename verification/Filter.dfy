/** Ad-block rules: parsing and suffix matching in src/filter.rs. */
module Filter {
  import opened Names

  datatype RuleSet = RuleSet(blocked: set<string>, exceptions: set<string>)

  function Merge(a: RuleSet, b: RuleSet): RuleSet {
    RuleSet(a.blocked + b.blocked, a.exceptions + b.exceptions)
  }

  // Matching

  /** What is_blocked means: some label suffix is blocked and none is exempt. */
  predicate Blocked(rules: RuleSet, allowlist: set<string>, name: string) {
    var n := Normalize(name);
    SuffixIn(n, rules.blocked) && !SuffixIn(n, allowlist) && !SuffixIn(n, rules.exceptions)
  }

  method IsBlocked(rules: RuleSet, allowlist: set<string>, name: string) returns (blocked: bool)
    ensures blocked <==> Blocked(rules, allowlist, name)
  {
    var n := Normalize(name);
    var exempt := AnySuffixIn(n, allowlist + rules.exceptions);
    if exempt { return false; }
    blocked := AnySuffixIn(n, rules.blocked);
  }

  lemma BlockedIgnoresCaseAndDots(rules: RuleSet, allowlist: set<string>, x: string, y: string, dots: string)
    requires LowerAll(x) == LowerAll(y) && forall i :: 0 <= i < |dots| ==> dots[i] == '.'
    ensures Blocked(rules, allowlist, x + dots) <==> Blocked(rules, allowlist, y)
  {
    NormalizeIgnoresCaseAndDots(x, y, dots);
  }

  // Parsing

  /** Unicode White_Space, as str::trim and split_whitespace use it. */
  predicate White(c: char) {
    var u := c as int;
    || 0x9 <= u <= 0xd || u == 0x20 || u == 0x85 || u == 0xa0 || u == 0x1680 || 0x2000 <= u <= 0x200a
    || u == 0x2028 || u == 0x2029 || u == 0x202f || u == 0x205f || u == 0x3000
  }

  function TrimStart(s: string): string {
    if s != [] && White(s[0]) then TrimStart(s[1..]) else s
  }

  function TrimEnd(s: string): string {
    if s != [] && White(s[|s| - 1]) then TrimEnd(s[..|s| - 1]) else s
  }

  function Trim(s: string): string {
    TrimEnd(TrimStart(s))
  }

  /** The part before the first character of `stops`. */
  function UpTo(s: string, stops: set<char>): string {
    if s == [] || s[0] in stops then [] else [s[0]] + UpTo(s[1..], stops)
  }

  /** The words of a line: split_whitespace. */
  function Words(s: string): seq<string>
    decreases |s|
  {
    var t := TrimStart(s);
    TrimStartShrinks(s);
    if t == [] then []
    else
      var w := Word(t);
      [w] + Words(t[|w|..])
  }

  function Word(s: string): (w: string)
    ensures |w| <= |s|
    ensures s != [] && !White(s[0]) ==> w != []
  {
    if s == [] || White(s[0]) then [] else [s[0]] + Word(s[1..])
  }

  lemma {:induction false} TrimStartShrinks(s: string)
    ensures |TrimStart(s)| <= |s|
    ensures TrimStart(s) != [] ==> !White(TrimStart(s)[0])
  {
    if s != [] && White(s[0]) { TrimStartShrinks(s[1..]); }
  }

  predicate ValidDomain(s: string) {
    && s != []
    && (forall i :: 0 <= i < |s| ==> s[i] !in {'/', '*', '$', '|', '^', ' ', '\t'})
    && '.' in s
  }

  datatype Rule = Nothing | Block(domain: string) | Except(domain: string)

  function Accept(domain: string, exception: bool): Rule {
    var d := Normalize(domain);
    if !ValidDomain(d) then Nothing else if exception then Except(d) else Block(d)
  }

  /** One line: a comment, an exception, a block rule, a hosts line or a plain domain. `isIp` parses addresses. */
  function ParseLine(raw: string, isIp: string -> bool): Rule {
    var line := Trim(raw);
    if line == [] || line[0] == '!' || line[0] == '#' then Nothing
    else if "@@||" <= line then Accept(UpTo(line[4..], {'^', '$'}), true)
    else if "||" <= line then Accept(UpTo(line[2..], {'^', '$'}), false)
    else
      var words := Words(Trim(UpTo(line, {'#'})));
      if |words| >= 2 then (if isIp(words[0]) then Accept(words[1], false) else Nothing)
      else if |words| == 1 then Accept(words[0], false)
      else Nothing
  }

  /** The text cut at line feeds. str::lines also drops a carriage return before one and an empty last
      piece; both are white space to ParseLine. */
  function Lines(text: string): (r: seq<string>)
    ensures r != []
  {
    if text == [] then [[]] else Prepend(text[0], Lines(text[1..]))
  }

  function Add(rules: RuleSet, rule: Rule): RuleSet {
    match rule
    case Nothing => rules
    case Block(d) => rules.(blocked := rules.blocked + {d})
    case Except(d) => rules.(exceptions := rules.exceptions + {d})
  }

  /** The rules of the given lines. */
  function Collect(lines: seq<string>, isIp: string -> bool): RuleSet {
    if lines == [] then RuleSet({}, {})
    else Add(Collect(lines[..|lines| - 1], isIp), ParseLine(lines[|lines| - 1], isIp))
  }

  method ParseRules(text: string, isIp: string -> bool) returns (rules: RuleSet)
    ensures rules == Collect(Lines(text), isIp)
  {
    rules := RuleSet({}, {});
    var lines := Lines(text);
    for i := 0 to |lines|
      invariant rules == Collect(lines[..i], isIp)
    {
      assert lines[..i + 1][..i] == lines[..i];
      rules := Add(rules, ParseLine(lines[i], isIp));
    }
    assert lines[..|lines|] == lines;
  }

  /** Lines of a text with one more character in front. */
  function Prepend(c: char, lines: seq<string>): seq<string>
    requires lines != []
  {
    if c == '\n' then [[]] + lines else [[c] + lines[0]] + lines[1..]
  }

  lemma PrependConcat(c: char, a: seq<string>, b: seq<string>)
    requires a != []
    ensures Prepend(c, a + b) == Prepend(c, a) + b
  {
    assert (a + b)[1..] == a[1..] + b;
  }

  lemma {:induction false} LinesJoin(a: string, b: string)
    ensures Lines(a + "\n" + b) == Lines(a) + Lines(b)
  {
    var t := a + "\n" + b;
    if a == [] {
      assert t[1..] == b && t[0] == '\n';
    } else {
      assert t[1..] == a[1..] + "\n" + b && t[0] == a[0];
      LinesJoin(a[1..], b);
      PrependConcat(a[0], Lines(a[1..]), Lines(b));
    }
  }

  lemma {:induction false} CollectConcat(a: seq<string>, b: seq<string>, isIp: string -> bool)
    ensures Collect(a + b, isIp) == Merge(Collect(a, isIp), Collect(b, isIp))
  {
    if b == [] {
      assert a + b == a;
    } else {
      var b' := b[..|b| - 1];
      assert (a + b)[..|a + b| - 1] == a + b';
      CollectConcat(a, b', isIp);
    }
  }

  /** Parsing two texts joined by a line feed is merging their parses. */
  lemma ParseJoined(a: string, b: string, isIp: string -> bool)
    ensures Collect(Lines(a + "\n" + b), isIp) == Merge(Collect(Lines(a), isIp), Collect(Lines(b), isIp))
  {
    LinesJoin(a, b);
    CollectConcat(Lines(a), Lines(b), isIp);
  }

  lemma {:induction false} CollectedAreValid(lines: seq<string>, isIp: string -> bool)
    ensures forall d :: d in Collect(lines, isIp).blocked ==> ValidDomain(d)
    ensures forall d :: d in Collect(lines, isIp).exceptions ==> ValidDomain(d)
  {
    if lines != [] { CollectedAreValid(lines[..|lines| - 1], isIp); }
  }

  /** No rule text can block a name of a single label: every rule domain has a dot. */
  lemma SingleLabelNeverBlocked(text: string, isIp: string -> bool, allowlist: set<string>, name: string)
    requires '.' !in Normalize(name)
    ensures !Blocked(Collect(Lines(text), isIp), allowlist, name)
  {
    var n, rules := Normalize(name), Collect(Lines(text), isIp);
    CollectedAreValid(Lines(text), isIp);
    forall i | 0 <= i <= |n| && Boundary(n, i) ensures n[i..] !in rules.blocked {
      assert '.' !in n[i..];
      assert !ValidDomain(n[i..]);
    }
  }

  // Rules as they are written

  /** A domain as a rule list may spell it, in any letter case and with trailing dots: valid once normalised, and
      without the characters that end a domain or start a comment. */
  predicate Spelled(d: string) {
    && ValidDomain(Normalize(d))
    && (forall i :: 0 <= i < |d| ==> !White(d[i]) && d[i] !in {'#', '!', '@', '|', '^', '$'})
  }

  lemma TrimKeeps(s: string)
    requires s != [] && !White(s[0]) && !White(s[|s| - 1])
    ensures Trim(s) == s
  {
  }

  lemma {:induction false} UpToStop(d: string, stops: set<char>, rest: string)
    requires (forall i :: 0 <= i < |d| ==> d[i] !in stops) && (rest != [] ==> rest[0] in stops)
    ensures UpTo(d + rest, stops) == d
  {
    if d == [] {
      assert d + rest == rest;
    } else {
      assert (d + rest)[1..] == d[1..] + rest;
      UpToStop(d[1..], stops, rest);
    }
  }

  lemma {:induction false} WordOfPlain(d: string)
    requires forall i :: 0 <= i < |d| ==> !White(d[i])
    ensures Word(d) == d
  {
    if d != [] { WordOfPlain(d[1..]); }
  }

  lemma WordsOfPlain(d: string)
    requires d != [] && forall i :: 0 <= i < |d| ==> !White(d[i])
    ensures Words(d) == [d]
  {
    WordOfPlain(d);
    assert d[|d|..] == [] && Words([]) == [];
  }

  /** What may follow the domain in an adblock rule: nothing, or the separator or options up to a visible end. */
  predicate RuleTail(rest: string) {
    rest == [] || (rest[0] in {'^', '$'} && !White(rest[|rest| - 1]))
  }

  lemma VisibleRule(prefix: string, d: string, rest: string)
    requires prefix != [] && prefix[0] in {'|', '@'} && Spelled(d) && RuleTail(rest)
    ensures Trim(prefix + d + rest) == prefix + d + rest && UpTo(d + rest, {'^', '$'}) == d
  {
    var line := prefix + d + rest;
    assert d != [];
    assert line[0] == prefix[0] && line[|line| - 1] == if rest == [] then d[|d| - 1] else rest[|rest| - 1];
    TrimKeeps(line);
    UpToStop(d, {'^', '$'}, rest);
  }

  lemma BlockForm(d: string, rest: string, isIp: string -> bool)
    requires Spelled(d) && RuleTail(rest)
    ensures ParseLine("||" + d + rest, isIp) == Block(Normalize(d))
  {
    var b := "||" + d + rest;
    VisibleRule("||", d, rest);
    assert b[2..] == d + rest && "||" <= b && b[0] == '|';
  }

  lemma ExceptionForm(d: string, rest: string, isIp: string -> bool)
    requires Spelled(d) && RuleTail(rest)
    ensures ParseLine("@@||" + d + rest, isIp) == Except(Normalize(d))
  {
    var x := "@@||" + d + rest;
    VisibleRule("@@||", d, rest);
    assert x[4..] == d + rest && "@@||" <= x && x[0] == '@';
  }

  /** The adblock forms read back as what they say, whatever separator and options follow the domain. */
  lemma AdblockForms(d: string, rest: string)
    requires Spelled(d) && RuleTail(rest)
    ensures forall isIp :: ParseLine("||" + d + rest, isIp) == Block(Normalize(d))
    ensures forall isIp :: ParseLine("@@||" + d + rest, isIp) == Except(Normalize(d))
  {
    forall isIp ensures ParseLine("||" + d + rest, isIp) == Block(Normalize(d)) { BlockForm(d, rest, isIp); }
    forall isIp ensures ParseLine("@@||" + d + rest, isIp) == Except(Normalize(d)) { ExceptionForm(d, rest, isIp); }
  }

  lemma {:induction false} TrimEndKeepsFirst(s: string)
    requires s != [] && !White(s[0])
    ensures TrimEnd(s) != [] && TrimEnd(s)[0] == s[0]
  {
    if White(s[|s| - 1]) { TrimEndKeepsFirst(s[..|s| - 1]); }
  }

  /** Lines that start with ! or # are comments. */
  lemma CommentForm(line: string, isIp: string -> bool)
    requires line != [] && (line[0] == '!' || line[0] == '#')
    ensures ParseLine(line, isIp) == Nothing
  {
    TrimEndKeepsFirst(line);
  }

  lemma {:induction false} TrimEndDropsWhite(s: string, white: string)
    requires s != [] && !White(s[|s| - 1]) && forall i :: 0 <= i < |white| ==> White(white[i])
    ensures TrimEnd(s + white) == s
  {
    if white == [] {
      assert s + white == s;
    } else {
      assert (s + white)[..|s + white| - 1] == s + white[..|white| - 1];
      TrimEndDropsWhite(s, white[..|white| - 1]);
    }
  }

  lemma {:induction false} WordStops(a: string, rest: string)
    requires (forall i :: 0 <= i < |a| ==> !White(a[i])) && (rest == [] || White(rest[0]))
    ensures Word(a + rest) == a
  {
    if a == [] {
      assert a + rest == rest;
    } else {
      assert (a + rest)[1..] == a[1..] + rest;
      WordStops(a[1..], rest);
    }
  }

  lemma WordsOfTwo(a: string, b: string)
    requires a != [] && b != [] && (forall i :: 0 <= i < |a| ==> !White(a[i]))
    requires forall i :: 0 <= i < |b| ==> !White(b[i])
    ensures Words(a + " " + b) == [a, b]
  {
    var s := a + " " + b;
    assert s == a + (" " + b) && s[0] == a[0];
    WordStops(a, " " + b);
    var rest := s[|a|..];
    assert rest == " " + b && rest[1..] == b;
    assert TrimStart(rest) == b;
    WordsOfPlain(b);
    assert Words(rest) == Words(b);
  }

  /** What may follow on a hosts or plain line: nothing, or white space and a comment up to a visible end. */
  predicate CommentTail(white: string, comment: string) {
    && (forall i :: 0 <= i < |white| ==> White(white[i]))
    && (if comment == [] then white == [] else comment[0] == '#' && !White(comment[|comment| - 1]))
  }

  /** A text as the fields of a hosts line are: visible, and not starting a comment or an adblock rule. */
  predicate Field(s: string) {
    s != [] && forall i :: 0 <= i < |s| ==> !White(s[i]) && s[i] !in {'#', '!', '@', '|'}
  }

  lemma CutComment(text: string, white: string, comment: string)
    requires text != [] && !White(text[0]) && !White(text[|text| - 1]) && CommentTail(white, comment)
    requires forall i :: 0 <= i < |text| ==> text[i] != '#'
    ensures Trim(UpTo(text + white + comment, {'#'})) == text
  {
    var front := text + white;
    assert forall i :: 0 <= i < |front| ==> front[i] !in {'#'};
    UpToStop(front, {'#'}, comment);
    assert front[0] == text[0];
    TrimEndDropsWhite(text, white);
  }

  lemma VisibleLine(text: string, white: string, comment: string)
    requires text != [] && !White(text[0]) && !White(text[|text| - 1]) && CommentTail(white, comment)
    ensures Trim(text + white + comment) == text + white + comment
  {
    var line := text + white + comment;
    assert line[0] == text[0];
    assert line[|line| - 1] == if comment == [] then text[|text| - 1] else comment[|comment| - 1];
    TrimKeeps(line);
  }

  /** A hosts line is the part before its comment, cut into words. */
  lemma LineBeforeComment(text: string, white: string, comment: string, isIp: string -> bool)
    requires text != [] && !White(text[0]) && !White(text[|text| - 1]) && CommentTail(white, comment)
    requires text[0] !in {'!', '@', '|'} && forall i :: 0 <= i < |text| ==> text[i] != '#'
    ensures ParseLine(text + white + comment, isIp)
            == var words := Words(text);
               if |words| >= 2 then (if isIp(words[0]) then Accept(words[1], false) else Nothing)
               else if |words| == 1 then Accept(words[0], false)
               else Nothing
  {
    VisibleLine(text, white, comment);
    CutComment(text, white, comment);
    assert (text + white + comment)[0] == text[0];
  }

  /** A hosts line blocks its domain if its first field is an address, and nothing otherwise, with or without a
      comment. */
  lemma HostsForm(ip: string, d: string, white: string, comment: string, isIp: string -> bool)
    requires Field(ip) && Spelled(d) && CommentTail(white, comment)
    ensures ParseLine(ip + " " + d + white + comment, isIp) == if isIp(ip) then Block(Normalize(d)) else Nothing
  {
    var text := ip + " " + d;
    assert d != [] && text[0] == ip[0] && text[|text| - 1] == d[|d| - 1];
    LineBeforeComment(text, white, comment, isIp);
    WordsOfTwo(ip, d);
  }

  /** A bare domain line blocks that domain, with or without a comment. */
  lemma PlainForm(d: string, white: string, comment: string, isIp: string -> bool)
    requires Spelled(d) && CommentTail(white, comment)
    ensures ParseLine(d + white + comment, isIp) == Block(Normalize(d))
  {
    assert d != [];
    LineBeforeComment(d, white, comment, isIp);
    WordsOfPlain(d);
  }

  /** Whatever the text, the domains of its rules have a dot and none of the characters that no domain has. */
  lemma {:induction false} RuleDomains(lines: seq<string>, isIp: string -> bool, d: string)
    requires d in Collect(lines, isIp).blocked + Collect(lines, isIp).exceptions
    ensures '.' in d && forall i :: 0 <= i < |d| ==> d[i] !in "/*$|^ \t"
  {
    CollectedAreValid(lines, isIp);
  }

  /** Filter::new: the configured exemptions, normalised. */
  function Allowlist(names: seq<string>): set<string> {
    set i | 0 <= i < |names| :: Normalize(names[i])
  }

  /** A configured exemption, in any spelling, exempts the domain and everything below it from every rule. */
  lemma AllowlistExempts(names: seq<string>, i: nat, rules: RuleSet, name: string, at: nat)
    requires i < |names| && at <= |Normalize(name)| && Boundary(Normalize(name), at)
    requires SameName(names[i], Normalize(name)[at..])
    ensures !Blocked(rules, Allowlist(names), name)
  {
    var n := Normalize(name);
    NormalizeIff(names[i], n[at..]);
    SuffixIsNormal(name, at);
    assert n[at..] in Allowlist(names);
  }

  lemma LowerTwice(c: char)
    ensures Lower(Lower(c)) == Lower(c) && (Lower(c) == '.' <==> c == '.')
  {
  }

  /** A text in lower case without a trailing dot is its own normal form. */
  lemma AlreadyNormal(t: string)
    requires forall i :: 0 <= i < |t| ==> Lower(t[i]) == t[i]
    requires t != [] ==> t[|t| - 1] != '.'
    ensures Normalize(t) == t
  {
    assert TrimDots(t) == t;
  }

  /** A label suffix of a normalised name is normal. */
  lemma SuffixIsNormal(name: string, at: nat)
    requires at <= |Normalize(name)|
    ensures Normalize(Normalize(name)[at..]) == Normalize(name)[at..]
  {
    var n := Normalize(name);
    var t := n[at..];
    NormalizeMeans(name);
    forall i | 0 <= i < |t| ensures Lower(t[i]) == t[i] {
      assert t[i] == n[at + i] == Lower(name[at + i]);
      LowerTwice(name[at + i]);
    }
    if t != [] {
      assert t[|t| - 1] == n[|n| - 1] == Lower(name[|n| - 1]);
      LowerTwice(name[|n| - 1]);
    }
    AlreadyNormal(t);
  }

  lemma {:induction false} LinesOfOne(s: string)
    requires '\n' !in s
    ensures Lines(s) == [s]
  {
    if s != [] {
      LinesOfOne(s[1..]);
      assert s == [s[0]] + s[1..];
    }
  }

  /** The rules of one adblock line. */
  lemma OneBlockRule(d: string, isIp: string -> bool)
    requires Spelled(d)
    ensures Collect(Lines("||" + d + "^"), isIp) == RuleSet({Normalize(d)}, {})
  {
    var text := "||" + d + "^";
    assert '\n' !in text by { assert White('\n'); }
    LinesOfOne(text);
    AdblockForms(d, "^");
    assert "||" + d + "^" == text;
    assert [text][..0] == [];
  }

  /** From text to verdict: wherever the rule ||d^ stands in a list, it blocks d and every subdomain of d, both in
      any spelling, unless the allowlist or some exception rule exempts the name; and an exempt name is not blocked. */
  lemma BlockRuleCoversSubdomains(before: string, d: string, after: string, isIp: string -> bool,
                                  allowlist: set<string>, name: string, at: nat)
    requires Spelled(d)
    requires at <= |Normalize(name)| && Boundary(Normalize(name), at) && Normalize(name)[at..] == Normalize(d)
    ensures var rules := Collect(Lines(before + "\n" + ("||" + d + "^" + "\n" + after)), isIp);
            Blocked(rules, allowlist, name) <==>
              !SuffixIn(Normalize(name), allowlist) && !SuffixIn(Normalize(name), rules.exceptions)
  {
    var rule := "||" + d + "^";
    ParseJoined(before, rule + "\n" + after, isIp);
    ParseJoined(rule, after, isIp);
    OneBlockRule(d, isIp);
    var rules := Collect(Lines(before + "\n" + (rule + "\n" + after)), isIp);
    assert Normalize(d) in rules.blocked;
  }

  /** A subdomain written out, with any trailing dots, is a name that rule covers. */
  lemma SubdomainNormal(host: string, d: string, dots: string)
    requires d != [] && d[|d| - 1] != '.' && forall i :: 0 <= i < |dots| ==> dots[i] == '.'
    ensures var n := Normalize(host + "." + d + dots);
            |host| + 1 <= |n| && Boundary(n, |host| + 1) && n[|host| + 1..] == Normalize(d)
  {
    var name := host + "." + d;
    TrimDotsOfDots(name, dots);
    assert TrimDots(name) == name && TrimDots(d) == d;
    LowerConcat(host + ".", d);
    var n := LowerAll(name);
    assert n[|host|] == Lower(name[|host|]) && name[|host|] == '.';
    assert n[|host| + 1..] == LowerAll(d);
  }

  lemma LowerConcat(a: string, b: string)
    ensures LowerAll(a + b) == LowerAll(a) + LowerAll(b)
  {
  }
}
