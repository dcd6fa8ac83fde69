/** The string functions of the command parser, for ASCII text. */
module Text {
  predicate IsSpace(c: char) {
    c == ' ' || 9 <= c as int <= 13
  }

  lemma SixSpaces(c: char)
    ensures IsSpace(c) <==> c in [' ', '\t', '\n', '\U{0b}', '\U{0c}', '\r']
  {}

  function TrimLeft(s: string): string {
    if s != [] && IsSpace(s[0]) then TrimLeft(s[1..]) else s
  }

  function TrimRight(s: string): string {
    if s != [] && IsSpace(s[|s| - 1]) then TrimRight(s[..|s| - 1]) else s
  }

  function TrimSpace(s: string): string {
    TrimRight(TrimLeft(s))
  }

  function UpperChar(c: char): char {
    if 'a' <= c <= 'z' then c - 'a' + 'A' else c
  }

  function ToUpper(s: string): (r: string)
    ensures |r| == |s|
  {
    seq(|s|, i requires 0 <= i < |s| => UpperChar(s[i]))
  }

  /** Index of the first `c`, or the length when there is none. */
  function IndexOf(s: string, c: char): (i: nat)
    ensures i <= |s| && c !in s[..i] && (i < |s| ==> s[i] == c)
  {
    if s == [] || s[0] == c then 0
    else
      var i := IndexOf(s[1..], c);
      assert s[..i + 1] == [s[0]] + s[1..][..i];
      i + 1
  }

  /** strings.Split with a one-character separator. */
  function Split(s: string, separator: char): (parts: seq<string>)
    ensures parts != []
  {
    var i := IndexOf(s, separator);
    if i == |s| then [s] else [s[..i]] + Split(s[i + 1..], separator)
  }

  function SpaceFrom(s: string): (i: nat)
    ensures i <= |s| && (forall k :: 0 <= k < i ==> !IsSpace(s[k])) && (i < |s| ==> IsSpace(s[i]))
  {
    if s == [] || IsSpace(s[0]) then 0 else 1 + SpaceFrom(s[1..])
  }

  /** strings.Fields: the maximal runs of non-space characters. */
  function Fields(s: string): seq<string>
    decreases |s|
  {
    if s == [] then []
    else if IsSpace(s[0]) then Fields(s[1..])
    else [s[..SpaceFrom(s)]] + Fields(s[SpaceFrom(s)..])
  }

  /** Verb in upper case and trimmed arguments. */
  function SplitCommand(line: string): (string, string) {
    var i := IndexOf(line, ' ');
    (ToUpper(TrimSpace(line[..i])), if i == |line| then "" else TrimSpace(line[i + 1..]))
  }

  predicate IsAngle(c: char) {
    c == '<' || c == '>'
  }

  function TrimAngles(s: string): string {
    if s == [] then s
    else if IsAngle(s[0]) then TrimAngles(s[1..])
    else if IsAngle(s[|s| - 1]) then TrimAngles(s[..|s| - 1])
    else s
  }

  function ExtractAddress(args: string, prefixLen: nat): string
    requires prefixLen <= |args|
  {
    var s := TrimSpace(args[prefixLen..]);
    if s == [] then ""
    else if s[0] == '<' && IndexOf(s, '>') < |s| then s[1..IndexOf(s, '>')]
    else
      var fields := Fields(s);
      if fields == [] then "" else TrimAngles(fields[0])
  }

  // ---- What the parser recovers ----

  lemma {:induction false} IndexOfFirst(p: string, c: char, rest: string)
    requires c !in p
    ensures IndexOf(p + [c] + rest, c) == |p|
  {
    if p != [] {
      IndexOfFirst(p[1..], c, rest);
      assert (p + [c] + rest)[1..] == p[1..] + [c] + rest;
    } else {
      assert (p + [c] + rest)[0] == c;
    }
  }

  predicate Trimmed(s: string) {
    s != [] && !IsSpace(s[0]) && !IsSpace(s[|s| - 1])
  }

  lemma TrimSpaceKeeps(s: string)
    requires Trimmed(s)
    ensures TrimSpace(s) == s
  {}

  /** An address in angle brackets is found after any spaces and before any parameters. */
  lemma BracketedAddressFound(prefix: string, spaces: string, address: string, parameters: string)
    requires forall c :: c in spaces ==> IsSpace(c)
    requires '>' !in address
    requires parameters == "" || !IsSpace(parameters[|parameters| - 1])
    ensures ExtractAddress(prefix + spaces + "<" + address + ">" + parameters, |prefix|) == address
  {
    hide TrimSpace;
    var s := "<" + address + ">" + parameters;
    var args := prefix + spaces + "<" + address + ">" + parameters;
    assert args[|prefix|..] == spaces + s;
    assert s[|s| - 1] == if parameters == "" then '>' else parameters[|parameters| - 1];
    assert spaces + s + "" == spaces + s;
    TrimSpaceFinds(spaces, s, "");
    assert s[0] == '<' && s[1..|address| + 1] == address;
    assert s == ("<" + address) + ['>'] + parameters;
    IndexOfFirst("<" + address, '>', parameters);
  }

  lemma {:induction false} SpaceAfter(word: string, rest: string)
    requires forall k :: 0 <= k < |word| ==> !IsSpace(word[k])
    requires rest == "" || IsSpace(rest[0])
    ensures SpaceFrom(word + rest) == |word|
  {
    if word == [] {
      assert word + rest == rest;
    } else {
      SpaceAfter(word[1..], rest);
      assert (word + rest)[1..] == word[1..] + rest;
    }
  }

  lemma {:induction false} BracketsShed(left: string, address: string, right: string)
    requires address != "" && !IsAngle(address[0]) && !IsAngle(address[|address| - 1])
    requires (forall c :: c in left ==> IsAngle(c)) && (forall c :: c in right ==> IsAngle(c))
    ensures TrimAngles(left + address + right) == address
    decreases |left| + |right|
  {
    var s := left + address + right;
    if left != [] {
      assert left[0] in left && forall c :: c in left[1..] ==> c in left;
      assert s[1..] == left[1..] + address + right;
      BracketsShed(left[1..], address, right);
    } else if right != [] {
      var n := |right| - 1;
      assert right[n] in right && forall c :: c in right[..n] ==> c in right;
      assert s[0] == address[0] && s[|s| - 1] == right[n] && s[..|s| - 1] == left + address + right[..n];
      BracketsShed(left, address, right[..n]);
    } else {
      assert s == address;
    }
  }

  /** Otherwise the address is the first word, and stray brackets at its ends are shed. */
  lemma BareAddressFound(
    prefix: string, spaces: string, left: string, address: string, right: string, parameters: string)
    requires forall c :: c in spaces ==> IsSpace(c)
    requires address != "" && forall k :: 0 <= k < |address| ==> !IsSpace(address[k])
    requires address[0] !in "<>" && address[|address| - 1] !in "<>"
    requires (forall c :: c in left ==> c in "<>") && (forall c :: c in right ==> c in "<>")
    requires parameters == "" || (IsSpace(parameters[0]) && !IsSpace(parameters[|parameters| - 1]))
    requires left != "" && left[0] == '<' ==> '>' !in left + address + right + parameters
    ensures ExtractAddress(prefix + spaces + left + address + right + parameters, |prefix|) == address
  {
    hide TrimSpace;
    var word := left + address + right;
    var s := word + parameters;
    var args := prefix + spaces + left + address + right + parameters;
    assert args[|prefix|..] == spaces + s;
    forall k | 0 <= k < |word| ensures !IsSpace(word[k]) {
      assert k < |left| ==> word[k] in left;
      assert k >= |left| + |address| ==> word[k] in right;
    }
    assert s[|s| - 1] == if parameters == "" then word[|word| - 1] else parameters[|parameters| - 1];
    assert s[0] == word[0] == if left == "" then address[0] else left[0];
    assert spaces + s + "" == spaces + s;
    TrimSpaceFinds(spaces, s, "");
    SpaceAfter(word, parameters);
    assert s[..|word|] == word;
    assert Fields(s) == [word] + Fields(s[|word|..]);
    BracketsShed(left, address, right);
  }

  lemma {:induction false} NothingLeft(brackets: string)
    requires forall c :: c in brackets ==> IsAngle(c)
    ensures TrimAngles(brackets) == ""
  {
    if brackets != [] {
      assert brackets[0] in brackets && forall c :: c in brackets[1..] ==> c in brackets;
      NothingLeft(brackets[1..]);
    }
  }

  /** A first word of nothing but brackets, or no word at all, is no address. */
  lemma NoAddressFound(prefix: string, spaces: string, brackets: string, parameters: string)
    requires AllSpace(spaces) && forall c :: c in brackets ==> c in "<>"
    requires parameters == "" || (brackets != "" && IsSpace(parameters[0]) && !IsSpace(parameters[|parameters| - 1]))
    requires brackets != "" && brackets[0] == '<' ==> '>' !in brackets + parameters
    ensures ExtractAddress(prefix + spaces + brackets + parameters, |prefix|) == ""
  {
    hide TrimSpace, Fields, TrimAngles;
    var s := brackets + parameters;
    assert (prefix + spaces + brackets + parameters)[|prefix|..] == spaces + s;
    if brackets == "" {
      assert spaces + s == spaces;
      OnlySpaces(spaces);
    } else {
      assert brackets[0] in brackets && brackets[|brackets| - 1] in brackets;
      assert spaces + s + "" == spaces + s && s[0] == brackets[0];
      TrimSpaceFinds(spaces, s, "");
      assert "" + brackets + parameters == s;
      FieldFound("", brackets, parameters);
      NothingLeft(brackets);
    }
  }

  lemma {:induction false} NoIndex(s: string, c: char)
    requires c !in s
    ensures IndexOf(s, c) == |s|
  {
    if s != [] {
      NoIndex(s[1..], c);
    }
  }

  // ---- Words and segments ----

  /** The first word is found after any spaces; what is left is searched in the same way. */
  lemma {:induction false} FieldFound(spaces: string, word: string, rest: string)
    requires AllSpace(spaces) && word != "" && NoSpace(word) && (rest == "" || IsSpace(rest[0]))
    ensures Fields(spaces + word + rest) == [word] + Fields(rest)
    decreases |spaces|
  {
    var s := spaces + word + rest;
    if spaces == [] {
      assert s == word + rest && word[0] in word;
      forall k | 0 <= k < |word| ensures !IsSpace(word[k]) {
        assert word[k] in word;
      }
      SpaceAfter(word, rest);
      assert s[..|word|] == word && s[|word|..] == rest;
    } else {
      assert spaces[0] in spaces && forall c :: c in spaces[1..] ==> c in spaces;
      assert s[1..] == spaces[1..] + word + rest;
      FieldFound(spaces[1..], word, rest);
    }
  }

  lemma {:induction false} NoFields(spaces: string)
    requires AllSpace(spaces)
    ensures Fields(spaces) == []
  {
    if spaces != [] {
      assert spaces[0] in spaces && forall c :: c in spaces[1..] ==> c in spaces;
      NoFields(spaces[1..]);
    }
  }

  /** Every text is one or the other. */
  lemma {:induction false} WordOrSpaces(s: string) returns (spaces: string, word: string, rest: string)
    ensures AllSpace(spaces) && NoSpace(word) && s == spaces + word + rest
    ensures word == "" ==> rest == ""
    ensures rest == "" || IsSpace(rest[0])
  {
    if s == [] {
      spaces, word, rest := "", "", "";
    } else if IsSpace(s[0]) {
      spaces, word, rest := WordOrSpaces(s[1..]);
      spaces := [s[0]] + spaces;
      assert s == [s[0]] + s[1..];
    } else {
      var i := SpaceFrom(s);
      spaces, word, rest := "", s[..i], s[i..];
    }
  }

  /** Up to the first separator, and so on. */
  lemma SplitFound(part: string, separator: char, rest: string)
    requires separator !in part
    ensures Split(part, separator) == [part]
    ensures Split(part + [separator] + rest, separator) == [part] + Split(rest, separator)
  {
    NoIndex(part, separator);
    IndexOfFirst(part, separator, rest);
    var s := part + [separator] + rest;
    assert s[..|part|] == part && s[|part| + 1..] == rest;
  }

  // ---- Letters ----

  /** Each small letter has the capital at the same place in the alphabet; nothing else changes. */
  lemma LettersRaised(c: char)
    ensures 'a' <= c <= 'z' ==> UpperChar(c) as int - 'A' as int == c as int - 'a' as int
    ensures !('a' <= c <= 'z') ==> UpperChar(c) == c
  {}

  predicate Small(c: char) {
    'a' <= c <= 'z'
  }

  /** `word` is `capitals` with any of its letters small. */
  predicate Spells(word: string, capitals: string) {
    |word| == |capitals| &&
    forall i :: 0 <= i < |word| ==>
      || word[i] == capitals[i]
      || ('A' <= capitals[i] <= 'Z' && word[i] as int - 'a' as int == capitals[i] as int - 'A' as int)
  }

  lemma SpelledUpper(word: string, capitals: string)
    requires forall c :: c in capitals ==> !Small(c)
    ensures Spells(word, capitals) <==> ToUpper(word) == capitals
  {
    forall i | 0 <= i < |word| && |word| == |capitals|
      ensures UpperChar(word[i]) == capitals[i] <==>
        (word[i] == capitals[i] ||
          ('A' <= capitals[i] <= 'Z' && word[i] as int - 'a' as int == capitals[i] as int - 'A' as int))
    {
      assert capitals[i] in capitals;
      LettersRaised(word[i]);
    }
    if ToUpper(word) == capitals {
      assert forall i :: 0 <= i < |word| ==> UpperChar(word[i]) == capitals[i];
    }
  }

  // ---- Commands ----

  predicate AllSpace(s: string) {
    forall c :: c in s ==> IsSpace(c)
  }

  predicate NoSpace(s: string) {
    forall c :: c in s ==> !IsSpace(c)
  }

  /** TrimSpace takes spaces off both ends and nothing else. */
  lemma {:induction false} TrimSpaceShape(s: string) returns (lead: string, tail: string)
    ensures AllSpace(lead) && AllSpace(tail) && s == lead + TrimSpace(s) + tail
    ensures TrimSpace(s) == "" || Trimmed(TrimSpace(s))
  {
    lead := TrimLeftShape(s);
    tail := TrimRightShape(TrimLeft(s));
    var left, line := TrimLeft(s), TrimSpace(s);
    assert s == lead + (line + tail);
    if line != "" {
      assert line[0] == left[0];
    }
  }

  lemma {:induction false} TrimLeftShape(s: string) returns (lead: string)
    ensures AllSpace(lead) && s == lead + TrimLeft(s)
    ensures TrimLeft(s) == "" || !IsSpace(TrimLeft(s)[0])
  {
    lead := "";
    if s != [] && IsSpace(s[0]) {
      lead := TrimLeftShape(s[1..]);
      lead := [s[0]] + lead;
      assert s == [s[0]] + s[1..];
    }
  }

  lemma {:induction false} TrimRightShape(s: string) returns (tail: string)
    ensures AllSpace(tail) && s == TrimRight(s) + tail
    ensures TrimRight(s) == "" || !IsSpace(TrimRight(s)[|TrimRight(s)| - 1])
  {
    tail := "";
    if s != [] && IsSpace(s[|s| - 1]) {
      tail := TrimRightShape(s[..|s| - 1]);
      tail := tail + [s[|s| - 1]];
      assert s == s[..|s| - 1] + [s[|s| - 1]];
    } else {
      assert s == s + "";
    }
  }

  lemma {:induction false} TrailingSpacesGo(s: string, spaces: string)
    requires AllSpace(spaces)
    ensures TrimRight(s + spaces) == TrimRight(s)
    decreases |spaces|
  {
    if spaces == [] {
      assert s + spaces == s;
    } else {
      var n := |spaces| - 1;
      assert spaces[n] in spaces && forall c :: c in spaces[..n] ==> c in spaces;
      assert (s + spaces)[..|s + spaces| - 1] == s + spaces[..n];
      TrailingSpacesGo(s, spaces[..n]);
    }
  }

  lemma {:induction false} OnlySpaces(spaces: string)
    requires AllSpace(spaces)
    ensures TrimSpace(spaces) == ""
  {
    if spaces != [] {
      assert spaces[0] in spaces && forall c :: c in spaces[1..] ==> c in spaces;
      OnlySpaces(spaces[1..]);
    }
  }

  /** Whatever is around it, text that neither begins nor ends with a space is found. */
  lemma TrimSpaceFinds(lead: string, s: string, tail: string)
    requires AllSpace(lead) && AllSpace(tail) && Trimmed(s)
    ensures TrimSpace(lead + s + tail) == s
  {
    var all := lead + s + tail;
    var rest := s + tail;
    assert all == lead + rest;
    LeadingSpacesGoAway(lead, rest);
    TrailingSpacesGo(s, tail);
  }

  lemma {:induction false} LeadingSpacesGoAway(spaces: string, s: string)
    requires AllSpace(spaces) && s != "" && !IsSpace(s[0])
    ensures TrimLeft(spaces + s) == s
  {
    if spaces == [] {
      assert spaces + s == s;
    } else {
      assert spaces[0] in spaces && forall c :: c in spaces[1..] ==> c in spaces;
      assert (spaces + s)[1..] == spaces[1..] + s;
      LeadingSpacesGoAway(spaces[1..], s);
    }
  }

  /** The line is the verb, in any spelling, and after a gap with a blank in it the
      arguments, if any; spaces around all of it do not matter. */
  ghost predicate SaysWith(text: string, capitals: string, args: string,
                           lead: string, word: string, gap: string, tail: string) {
    && text == lead + (word + gap + args) + tail
    && AllSpace(lead) && AllSpace(gap) && AllSpace(tail) && Spells(word, capitals)
    && (if args == "" then gap == "" else Trimmed(args) && ' ' in gap)
  }

  ghost predicate Says(text: string, capitals: string, args: string) {
    exists lead, word, gap, tail :: SaysWith(text, capitals, args, lead, word, gap, tail)
  }

  /** A verb as the parser knows it. */
  predicate IsVerb(capitals: string) {
    capitals != "" && NoSpace(capitals) && forall c :: c in capitals ==> !Small(c)
  }

  lemma SpelledWord(word: string, capitals: string)
    requires Spells(word, capitals) && IsVerb(capitals)
    ensures word != "" && NoSpace(word) && Trimmed(word)
  {
    forall c | c in word ensures !IsSpace(c) {
      var i :| 0 <= i < |word| && word[i] == c;
      assert capitals[i] in capitals;
    }
    assert word[0] in word && word[|word| - 1] in word;
  }

  /** Such a line is told apart into verb and arguments. */
  lemma SaidIsParsed(text: string, capitals: string, args: string)
    requires Says(text, capitals, args) && IsVerb(capitals)
    ensures TrimSpace(text) != "" && SplitCommand(TrimSpace(text)) == (capitals, args)
  {
    hide TrimSpace, SplitCommand;
    var lead, word, gap, tail :| SaysWith(text, capitals, args, lead, word, gap, tail);
    SpelledWord(word, capitals);
    var line := word + gap + args;
    assert line[0] == word[0];
    assert line[|line| - 1] == if args == "" then word[|word| - 1] else args[|args| - 1];
    TrimSpaceFinds(lead, line, tail);
    SpelledUpper(word, capitals);
    LineParsed(word, gap, args);
  }

  lemma LineParsed(word: string, gap: string, args: string)
    requires Trimmed(word) && NoSpace(word) && AllSpace(gap)
    requires if args == "" then gap == "" else Trimmed(args) && ' ' in gap
    ensures SplitCommand(word + gap + args) == (ToUpper(word), args)
  {
    var line := word + gap + args;
    if args == "" {
      assert line == word;
      NoIndex(word, ' ');
      assert word[..|word|] == word;
      TrimSpaceKeeps(word);
    } else {
      var i := IndexOf(gap, ' ');
      assert i < |gap|;
      var before, after := gap[..i], gap[i + 1..];
      assert gap == before + [' '] + after;
      assert line == (word + before) + [' '] + (after + args);
      IndexOfFirst(word + before, ' ', after + args);
      assert line[..|word + before|] == word + before && line[|word + before| + 1..] == after + args;
      assert forall c :: c in before ==> c in gap;
      assert forall c :: c in after ==> c in gap;
      assert "" + word + before == word + before && after + args + "" == after + args;
      TrimSpaceFinds("", word, before);
      TrimSpaceFinds(after, args, "");
    }
  }

  lemma SpaceInFront(lead: string, rest: string)
    requires AllSpace(lead)
    ensures lead != "" ==> IsSpace((lead + rest)[0])
  {
    if lead != "" {
      assert lead[0] in lead;
    }
  }

  lemma SpaceBehind(rest: string, tail: string)
    requires AllSpace(tail)
    ensures tail != "" ==> IsSpace((rest + tail)[|rest + tail| - 1])
  {
    if tail != "" {
      assert tail[|tail| - 1] in tail;
    }
  }

  /** And no other line is parsed so. */
  lemma ParsedIsSaid(text: string, capitals: string, args: string)
    requires IsVerb(capitals) && SplitCommand(TrimSpace(text)) == (capitals, args)
    ensures Says(text, capitals, args)
  {
    hide TrimSpace, IndexOf;
    var lead, tail := TrimSpaceShape(text);
    var line := TrimSpace(text);
    var i := IndexOf(line, ' ');
    SpelledUpper(TrimSpace(line[..i]), capitals);
    var lead', gap := TrimSpaceShape(line[..i]);
    var word := TrimSpace(line[..i]);
    assert word != "";
    assert line[..i] == lead' + (word + gap) && line[..i][0] == line[0];
    SpaceInFront(lead', word + gap);
    assert lead' == "" && line[..i] == word + gap;
    if i == |line| {
      assert line[..i] == line;
      SpaceBehind(word, gap);
      assert gap == "" && line == word + gap + args;
      assert SaysWith(text, capitals, args, lead, word, gap, tail);
    } else {
      var lead2, tail2 := TrimSpaceShape(line[i + 1..]);
      assert line == word + gap + [' '] + (lead2 + args + tail2);
      ArgsReachTheEnd(line, lead2, args, tail2);
      assert line == word + (gap + [' '] + lead2) + args;
      assert SaysWith(text, capitals, args, lead, word, gap + [' '] + lead2, tail);
    }
  }

  lemma ArgsReachTheEnd(line: string, lead: string, args: string, tail: string)
    requires Trimmed(line) && |lead + args + tail| < |line|
    requires line[|line| - |lead + args + tail|..] == lead + args + tail
    requires line[|line| - |lead + args + tail| - 1] == ' ' && AllSpace(lead) && AllSpace(tail)
    ensures args != "" && tail == ""
  {
    var end := lead + args + tail;
    var before := line[..|line| - |end|];
    SpaceBehind(lead + args, tail);
    assert args == "" && tail == "" ==> end == "" + lead;
    SpaceBehind("", lead);
    assert line == before + end && (end == "" ==> before == line);
    assert before[|before| - 1] == ' ';
  }

  /** The parser recovers verb and arguments from exactly the lines that say them. */
  lemma CommandSplit(text: string, capitals: string, args: string)
    requires IsVerb(capitals)
    ensures Says(text, capitals, args) <==> TrimSpace(text) != "" && SplitCommand(TrimSpace(text)) == (capitals, args)
  {
    hide TrimSpace, SplitCommand, Says;
    if Says(text, capitals, args) {
      SaidIsParsed(text, capitals, args);
    } else if TrimSpace(text) != "" && SplitCommand(TrimSpace(text)) == (capitals, args) {
      ParsedIsSaid(text, capitals, args);
    }
  }
}
