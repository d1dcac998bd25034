/** Reading a logged block back: `logEventResponse` splits it into lines and collects the fields. */
module EventParse {
  import opened Bytes
  import opened EventStream

  const DATA: seq<Byte> := [100, 97, 116, 97]

  /** `strings.Split(s, "\n")`. */
  function Split(s: seq<Byte>): (parts: seq<seq<Byte>>)
    ensures forall p <- parts :: NEWLINE !in p
  {
    var i := IndexOf(s, NEWLINE);
    if i < |s| then [s[..i]] + Split(s[i + 1..]) else [s]
  }

  /** A line feed, a carriage return or a space. */
  predicate IsBlank(b: Byte)
    ensures IsBlank(b) <==> b as char in ['\n', '\r', ' ']
  {
    b == NEWLINE || b == RETURN || b == SPACE
  }

  function TrimLeft(s: seq<Byte>): seq<Byte> {
    if s != [] && IsBlank(s[0]) then TrimLeft(s[1..]) else s
  }

  function TrimRight(s: seq<Byte>): seq<Byte> {
    if s != [] && IsBlank(s[|s| - 1]) then TrimRight(s[..|s| - 1]) else s
  }

  /** `strings.Trim(s, "\r\n ")`. */
  function Trim(s: seq<Byte>): seq<Byte> {
    TrimRight(TrimLeft(s))
  }

  /** Only blanks are trimmed, and all of them at both ends. */
  lemma {:induction false} TrimSplits(s: seq<Byte>) returns (before: seq<Byte>, after: seq<Byte>)
    ensures s == before + Trim(s) + after
    ensures (forall b <- before :: IsBlank(b)) && (forall b <- after :: IsBlank(b))
    ensures Trim(s) != [] ==> !IsBlank(Trim(s)[0]) && !IsBlank(Trim(s)[|Trim(s)| - 1])
  {
    before := TrimLeftSplits(s);
    after := TrimRightSplits(TrimLeft(s));
  }

  lemma {:induction false} TrimLeftSplits(s: seq<Byte>) returns (before: seq<Byte>)
    ensures s == before + TrimLeft(s) && forall b <- before :: IsBlank(b)
    ensures TrimLeft(s) != [] ==> !IsBlank(TrimLeft(s)[0])
  {
    before := [];
    if s != [] && IsBlank(s[0]) {
      var rest := TrimLeftSplits(s[1..]);
      before := [s[0]] + rest;
    }
  }

  lemma {:induction false} TrimRightSplits(s: seq<Byte>) returns (after: seq<Byte>)
    ensures s == TrimRight(s) + after && forall b <- after :: IsBlank(b)
    ensures TrimRight(s) != [] ==> !IsBlank(TrimRight(s)[|TrimRight(s)| - 1]) && TrimRight(s)[0] == s[0]
  {
    after := [];
    if s != [] && IsBlank(s[|s| - 1]) {
      var rest := TrimRightSplits(s[..|s| - 1]);
      after := rest + [s[|s| - 1]];
    }
  }

  function Join(parts: seq<seq<Byte>>): seq<Byte> {
    if parts == [] then []
    else if |parts| == 1 then parts[0]
    else parts[0] + [NEWLINE] + Join(parts[1..])
  }

  /** Splitting loses nothing: the parts joined by newlines are the text. */
  lemma {:induction false} JoinSplit(s: seq<Byte>)
    ensures Split(s) != [] && Join(Split(s)) == s
  {
    var i := IndexOf(s, NEWLINE);
    if i < |s| {
      JoinSplit(s[i + 1..]);
      assert s == s[..i] + [NEWLINE] + s[i + 1..];
    }
  }

  /** The lines that are not blank, trimmed, in order. */
  function Trimmed(lines: seq<seq<Byte>>): seq<seq<Byte>> {
    if lines == [] then []
    else (if Trim(lines[0]) == [] then [] else [Trim(lines[0])]) + Trimmed(lines[1..])
  }

  lemma {:induction false} TrimmedAppend(a: seq<seq<Byte>>, b: seq<seq<Byte>>)
    ensures Trimmed(a + b) == Trimmed(a) + Trimmed(b)
  {
    if a == [] {
      assert a + b == b;
    } else {
      TrimmedAppend(a[1..], b);
      assert (a + b)[0] == a[0] && (a + b)[1..] == a[1..] + b;
      Associative(if Trim(a[0]) == [] then [] else [Trim(a[0])], Trimmed(a[1..]), Trimmed(b));
    }
  }

  // ----- Splitting a block gives back the lines of its group.

  lemma {:induction false} SplitLines(a: seq<Byte>, b: seq<Byte>)
    ensures Split(a + [NEWLINE] + b) == Split(a) + Split(b)
    decreases |a|
  {
    var s, i := a + [NEWLINE] + b, IndexOf(a, NEWLINE);
    assert s[..i] == a[..i];
    IndexOfUnique(s, NEWLINE, i);
    if i < |a| {
      assert s[i + 1..] == a[i + 1..] + [NEWLINE] + b;
      SplitLines(a[i + 1..], b);
      Associative([a[..i]], Split(a[i + 1..]), Split(b));
    } else {
      assert a[..i] == a && s[i + 1..] == b;
    }
  }

  lemma SplitOne(s: seq<Byte>)
    requires NEWLINE !in s
    ensures Split(s) == [s]
  {
    IndexOfUnique(s, NEWLINE, |s|);
  }

  /** A line and the same line without its newline trim to the same text. */
  lemma {:induction false} TrimDropsNewline(s: seq<Byte>)
    ensures Trim(s + [NEWLINE]) == Trim(s)
    decreases |s|
  {
    if s != [] && IsBlank(s[0]) {
      TrimDropsNewline(s[1..]);
      assert (s + [NEWLINE])[1..] == s[1..] + [NEWLINE];
    } else if s != [] {
      assert TrimRight(s + [NEWLINE]) == TrimRight((s + [NEWLINE])[..|s|]);
      assert (s + [NEWLINE])[..|s|] == s;
    } else {
      assert s + [NEWLINE] == [NEWLINE] && [NEWLINE][1..] == [];
      assert TrimLeft([NEWLINE]) == TrimLeft([]);
    }
  }

  lemma TrimmedPush(lines: seq<seq<Byte>>, line: seq<Byte>)
    ensures Trimmed(lines + [line]) == if Trim(line) == [] then Trimmed(lines) else Trimmed(lines) + [Trim(line)]
  {
    TrimmedAppend(lines, [line]);
    var one := [line];
    assert one[1..] == [];
  }

  lemma TrimmedNext(lines: seq<seq<Byte>>, k: nat)
    requires k < |lines|
    ensures Trimmed(lines[..k + 1]) ==
              if Trim(lines[k]) == [] then Trimmed(lines[..k]) else Trimmed(lines[..k]) + [Trim(lines[k])]
  {
    assert lines[..k + 1] == lines[..k] + [lines[k]];
    TrimmedPush(lines[..k], lines[k]);
  }

  /** A line added to a block is split into itself and two empty parts. */
  lemma SplitDoubled(text: seq<Byte>)
    requires NEWLINE !in text
    ensures Split(text + [NEWLINE] + [NEWLINE]) == [text, [], []]
  {
    SplitOne([]);
    SplitOne(text);
    SplitLines([], []);
    assert [] + [NEWLINE] + [] == [NEWLINE];
    SplitLines(text, [NEWLINE]);
  }

  lemma TrimmedDoubled(parts: seq<seq<Byte>>, text: seq<Byte>)
    ensures Trimmed(parts + [text, [], []]) == Trimmed(parts + [text])
    ensures Trimmed(parts + [[]]) == Trimmed(parts)
  {
    assert parts + [text, [], []] == parts + [text] + [[]] + [[]];
    TrimmedPush(parts + [text] + [[]], []);
    TrimmedPush(parts + [text], []);
    TrimmedPush(parts, []);
  }

  lemma TrimmedTail(parts: seq<seq<Byte>>, text: seq<Byte>)
    ensures Trimmed(parts + [[]] + [text]) == Trimmed(parts + [text, [], []])
  {
    TrimmedDoubled(parts, text);
    TrimmedPush(parts + [[]], text);
    TrimmedPush(parts, text);
  }

  lemma LastNewline(before: seq<Byte>, tail: seq<Byte>)
    requires before != [] && before[|before| - 1] == NEWLINE
    ensures var head := before[..|before| - 1];
            before == head + [NEWLINE] + [] && before + tail == head + [NEWLINE] + tail
  {
  }

  /** Adding a line to a block that is empty or ends with a newline adds its text to the lines read back. */
  lemma SplitTail(before: seq<Byte>, text: seq<Byte>)
    requires before == [] || before[|before| - 1] == NEWLINE
    requires NEWLINE !in text
    ensures Trimmed(Split(before + (text + [NEWLINE] + [NEWLINE]))) == Trimmed(Split(before) + [text])
  {
    var tail := text + [NEWLINE] + [NEWLINE];
    SplitDoubled(text);
    SplitOne([]);
    var parts: seq<seq<Byte>> := [];
    if before == [] {
      assert before + tail == tail;
      assert Split(before) == parts + [[]] && [text, [], []] == parts + [text, [], []];
    } else {
      var head := before[..|before| - 1];
      LastNewline(before, tail);
      SplitLines(head, []);
      SplitLines(head, tail);
      parts := Split(head);
    }
    assert Split(before) == parts + [[]] && Split(before + tail) == parts + [text, [], []];
    TrimmedTail(parts, text);
  }

  lemma BlockEnds(group: seq<seq<Byte>>)
    ensures Block(group) == [] || Block(group)[|Block(group)| - 1] == NEWLINE
  {
  }

  /** Doubling the line ends for the block is undone by dropping blank lines. */
  lemma {:induction false} BlockSplitsToGroup(group: seq<seq<Byte>>)
    requires forall l <- group :: IsLine(l)
    ensures Trimmed(Split(Block(group))) == Trimmed(group)
  {
    if group == [] {
      SplitOne([]);
    } else {
      var n := |group| - 1;
      assert group[n] in group;
      var text, before := group[n][..|group[n]| - 1], Block(group[..n]);
      assert group[n] == text + [NEWLINE];
      BlockSplitsToGroup(group[..n]);
      BlockEnds(group[..n]);
      SplitTail(before, text);
      assert Block(group) == before + (text + [NEWLINE] + [NEWLINE]);
      ReadBackOne(Split(before), group, text);
    }
  }

  lemma ReadBackOne(parts: seq<seq<Byte>>, group: seq<seq<Byte>>, text: seq<Byte>)
    requires group != [] && group[|group| - 1] == text + [NEWLINE]
    requires Trimmed(parts) == Trimmed(group[..|group| - 1])
    ensures Trimmed(parts + [text]) == Trimmed(group)
  {
    var before, line := group[..|group| - 1], group[|group| - 1];
    TrimDropsNewline(text);
    assert group == before + [line];
    TrimmedPush(before, line);
    TrimmedPush(parts, text);
  }

  // ----- Fields.

  /** A field holds its text, or for `data` what the JSON decoder made of it. */
  datatype Field<J> = Text(text: seq<Byte>) | Data(value: J)

  datatype Decoded<J> = Decoded(value: J) | Malformed

  type Event<J> = map<seq<Byte>, Field<J>>

  /** What one trimmed line contributes: a field, unless it has no name or is `data` that does not decode. */
  datatype Contribution<J> = Nothing | Sets(name: seq<Byte>, field: Field<J>)

  function Contributes<J>(line: seq<Byte>, decode: seq<Byte> -> Decoded<J>): Contribution<J> {
    var sep := IndexOf(line, COLON);
    if sep == 0 || sep == |line| then Nothing
    else
      var name, value := line[..sep], line[sep + 1..];
      if name == DATA then
        match decode(value)
        case Decoded(v) => Sets(name, Data(v))
        case Malformed => Nothing
      else Sets(name, Text(value))
  }

  predicate Spells(bytes: seq<Byte>, text: string) {
    |bytes| == |text| && forall i :: 0 <= i < |bytes| ==> bytes[i] as char == text[i]
  }

  lemma OnlyDataSpellsData(name: seq<Byte>)
    ensures Spells(name, "data") <==> name == DATA
  {
    if Spells(name, "data") {
      assert name[0] as char == 'd' && name[1] as char == 'a' && name[2] as char == 't' && name[3] as char == 'a';
    }
  }

  /** A line made of a name, a colon and a value sets that name; other lines set nothing. Only `data` is decoded. */
  lemma ContributesItsField<J>(name: seq<Byte>, value: seq<Byte>, decode: seq<Byte> -> Decoded<J>)
    requires ':' as int !in name && name != []
    ensures var line := name + [':' as int] + value;
      Contributes(line, decode) ==
      if !Spells(name, "data") then Sets(name, Text(value))
      else if decode(value).Decoded? then Sets(name, Data(decode(value).value))
      else Nothing
    ensures Contributes(name, decode) == Nothing
    ensures Contributes([':' as int] + value, decode) == Nothing
  {
    OnlyDataSpellsData(name);
    var line := name + [COLON] + value;
    assert line[..|name|] == name && line[|name| + 1..] == value;
    IndexOfUnique(line, COLON, |name|);
    assert name[..|name|] == name;
    IndexOfUnique(name, COLON, |name|);
    IndexOfUnique([COLON] + value, COLON, 0);
  }

  /** Later lines overwrite earlier ones. */
  function Fields<J>(lines: seq<seq<Byte>>, decode: seq<Byte> -> Decoded<J>): Event<J> {
    if lines == [] then map[]
    else
      var before := Fields(lines[..|lines| - 1], decode);
      match Contributes(lines[|lines| - 1], decode)
      case Nothing => before
      case Sets(name, field) => before[name := field]
  }

  predicate SetsName<J>(line: seq<Byte>, decode: seq<Byte> -> Decoded<J>, name: seq<Byte>) {
    Contributes(line, decode).Sets? && Contributes(line, decode).name == name
  }

  /** Line `k` is the last one that sets `name`. */
  predicate SetsLast<J>(lines: seq<seq<Byte>>, k: nat, decode: seq<Byte> -> Decoded<J>, name: seq<Byte>) {
    k < |lines| && SetsName(lines[k], decode, name) && forall j :: k < j < |lines| ==> !SetsName(lines[j], decode, name)
  }

  /** A field of the event is the one set by the last line that sets its name, and there is none otherwise. */
  lemma {:induction false} LastLineWins<J>(lines: seq<seq<Byte>>, decode: seq<Byte> -> Decoded<J>, name: seq<Byte>)
    returns (k: nat)
    ensures name !in Fields(lines, decode) ==>
              k == |lines| && forall j :: 0 <= j < |lines| ==> !SetsName(lines[j], decode, name)
    ensures name in Fields(lines, decode) ==>
              SetsLast(lines, k, decode, name) && Fields(lines, decode)[name] == Contributes(lines[k], decode).field
  {
    if lines == [] {
      return 0;
    }
    var n := |lines| - 1;
    k := LastLineWins(lines[..n], decode, name);
    assert forall j :: 0 <= j < n ==> lines[..n][j] == lines[j];
    if SetsName(lines[n], decode, name) {
      k := n;
    } else if name !in Fields(lines, decode) {
      k := |lines|;
    }
  }

  /** The field loop of `logEventResponse`. */
  method ParseEvent<J>(body: seq<Byte>, decode: seq<Byte> -> Decoded<J>) returns (evt: Event<J>)
    ensures evt == Fields(Trimmed(Split(body)), decode)
  {
    evt := map[];
    var parts := Split(body);
    assert parts[..0] == [];
    for k := 0 to |parts|
      invariant evt == Fields(Trimmed(parts[..k]), decode)
    {
      TrimmedNext(parts, k);
      var line := Trim(parts[k]);
      if line == [] {
        continue;
      }
      FieldsSnoc(Trimmed(parts[..k]), line, decode);
      var sep := IndexOf(line, COLON);
      if sep == 0 || sep == |line| {
        continue;
      }
      if line[..sep] == DATA {
        match decode(line[sep + 1..])
        case Malformed =>
        case Decoded(data) => evt := evt[line[..sep] := Data(data)];
      } else {
        evt := evt[line[..sep] := Text(line[sep + 1..])];
      }
    }
    assert parts[..|parts|] == parts;
  }

  lemma FieldsSnoc<J>(lines: seq<seq<Byte>>, line: seq<Byte>, decode: seq<Byte> -> Decoded<J>)
    ensures Fields(lines + [line], decode) ==
              match Contributes(line, decode)
              case Nothing => Fields(lines, decode)
              case Sets(name, field) => Fields(lines, decode)[name := field]
  {
    assert (lines + [line])[..|lines|] == lines;
  }

  function NonEmpty(groups: seq<seq<seq<Byte>>>): (r: seq<seq<seq<Byte>>>)
    ensures forall g <- r :: g in groups && g != []
  {
    if groups == [] then []
    else
      var last := groups[|groups| - 1];
      NonEmpty(groups[..|groups| - 1]) + if last == [] then [] else [last]
  }

  lemma {:induction false} BlocksOfNonEmpty(groups: seq<seq<seq<Byte>>>)
    ensures |Blocks(groups)| == |NonEmpty(groups)|
    ensures forall b :: 0 <= b < |Blocks(groups)| ==> Blocks(groups)[b] == Block(NonEmpty(groups)[b])
  {
    if groups != [] { BlocksOfNonEmpty(groups[..|groups| - 1]); }
  }

  /**
   From upstream bytes to fields: the blocks the pump logs are those of the closed non-empty groups of upstream lines,
   in order, and parsing one gives the fields of its group's lines, the last one of a name winning.
   */
  lemma PumpedBlocksParse<J>(upstream: seq<Byte>, k: nat, b: nat, decode: seq<Byte> -> Decoded<J>)
    requires k <= |WholeLines(upstream)|
    requires b < |Blocks(Grouped(WholeLines(upstream)[..k]).0)|
    ensures var closed := Grouped(WholeLines(upstream)[..k]).0;
      && |Blocks(closed)| == |NonEmpty(closed)|
      && var block, group := Blocks(closed)[b], NonEmpty(closed)[b];
         && block == Block(group) && [NEWLINE] !in group
         && Fields(Trimmed(Split(block)), decode) == Fields(Trimmed(group), decode)
  {
    var lines := WholeLines(upstream)[..k];
    var closed := Grouped(lines).0;
    BlocksOfNonEmpty(closed);
    var group := NonEmpty(closed)[b];
    GroupedSplits(lines);
    forall l <- group ensures IsLine(l) {
      assert l in lines && l in WholeLines(upstream);
    }
    BlockSplitsToGroup(group);
  }
}
