/**
 * The parser of one configuration line: a machine that reads the line character by character up
 * to the terminating NUL.
 */
module ConfParser {
  import opened ConfText

  const NUL: char := '\0'

  datatype Mode = Init | SectionName | Key | ValStart | UnquotedVal | QuotedVal | CommentStart | CommentText

  datatype Machine = Machine(mode: Mode, key: string, val: string, section: string, escaping: bool)

  const START: Machine := Machine(Init, "", "", "", false)

  /** What a line is: nothing, wrong, or a section header or a setting (or a mere comment). */
  datatype Outcome = Blank | Wrong | Line(key: string, val: string, section: string)

  /** After one character: on to the next, the same character again, or the end. */
  datatype Reaction = Next(m: Machine) | Again(m: Machine) | Stop(outcome: Outcome)

  predicate IsComment(c: char) { c == '#' || c == ';' }

  function ReactInit(m: Machine, c: char): Reaction {
    if c == NUL then Stop(Blank)
    else if c == '[' then Next(m.(mode := SectionName))
    else if IsComment(c) then Next(m.(mode := CommentText))
    else if c == ']' then Stop(Wrong)
    else if IsSpace(c) then Next(m)
    else Again(m.(mode := Key))
  }

  function ReactSection(m: Machine, c: char): Reaction {
    if c == NUL then Stop(Wrong)
    else if c == ']' && !m.escaping then
      var name := Trim(m.section, true);
      if name == "" then Stop(Wrong) else Next(m.(section := name, mode := CommentStart))
    else if IsComment(c) && !m.escaping then Stop(Wrong)
    else if c == '\\' && !m.escaping then Next(m.(escaping := true))
    else Next(m.(escaping := false, section := m.section + [c]))
  }

  function ReactKey(m: Machine, c: char): Reaction {
    if (IsComment(c) && !m.escaping) || c == NUL then Stop(Wrong)
    else if c == '=' && !m.escaping then
      var name := Normalize(m.key);
      if name == "" then Stop(Wrong) else Next(m.(key := name, mode := ValStart))
    else if c == '\\' && !m.escaping then Next(m.(escaping := true))
    else Next(m.(escaping := false, key := m.key + [c]))
  }

  function Done(m: Machine): Outcome { Line(m.key, m.val, m.section) }

  function ReactValStart(m: Machine, c: char): Reaction {
    if c == NUL then Stop(Done(m))
    else if IsComment(c) then Next(m.(mode := CommentText))
    else if c == '"' then Next(m.(mode := QuotedVal))
    else if IsSpace(c) then Next(m)
    else Again(m.(mode := UnquotedVal))
  }

  function ReactUnquoted(m: Machine, c: char): Reaction {
    if c == NUL then
      if m.escaping then Stop(Wrong) else Stop(Done(m.(val := Trim(m.val, false))))
    else if IsComment(c) && !m.escaping then Next(m.(val := Trim(m.val, false), mode := CommentText))
    else if c == '\\' && !m.escaping then Next(m.(escaping := true))
    else Next(m.(escaping := false, val := m.val + [c]))
  }

  function ReactQuoted(m: Machine, c: char): Reaction {
    if c == NUL then Stop(Wrong)
    else if c == '"' && !m.escaping then Next(m.(mode := CommentStart))
    else if c == '\\' && !m.escaping then Next(m.(escaping := true))
    else Next(m.(escaping := false, val := m.val + [c]))
  }

  function ReactComment(m: Machine, c: char): Reaction {
    if m.mode == CommentText then (if c == NUL then Stop(Done(m)) else Next(m))
    else if c == NUL then Stop(Done(m))
    else if IsComment(c) then Next(m.(mode := CommentText))
    else if IsSpace(c) then Next(m)
    else Stop(Wrong)
  }

  function React(m: Machine, c: char): Reaction {
    match m.mode
    case Init => ReactInit(m, c)
    case SectionName => ReactSection(m, c)
    case Key => ReactKey(m, c)
    case ValStart => ReactValStart(m, c)
    case UnquotedVal => ReactUnquoted(m, c)
    case QuotedVal => ReactQuoted(m, c)
    case CommentStart => ReactComment(m, c)
    case CommentText => ReactComment(m, c)
  }

  /** The machine stops at the NUL, and reads no character a third time. */
  lemma StopsAtNul(m: Machine, c: char)
    ensures React(m, NUL).Stop?
    ensures React(m, c).Again? ==> !React(React(m, c).m, c).Again?
  {
  }

  function Rereads(m: Machine): nat { if m.mode == Init || m.mode == ValStart then 1 else 0 }

  /** The character at i, the line being terminated by NUL. */
  function At(line: string, i: nat): char
    requires i <= |line|
  {
    if i < |line| then line[i] else NUL
  }

  /** The outcome of a line from position i on. */
  function Parse(m: Machine, line: string, i: nat): Outcome
    requires i <= |line| && NUL !in line
    decreases |line| - i, Rereads(m)
  {
    match React(m, At(line, i))
    case Stop(o) => o
    case Again(m') => Parse(m', line, i)
    case Next(m') => StopsAtNul(m, NUL); Parse(m', line, i + 1)
  }

  function ParseLine(line: string): Outcome
    requires NUL !in line
  {
    Parse(START, line, 0)
  }

  /** Runs the machine; it never reads past the terminating NUL. */
  method ProcessLine(line: string) returns (o: Outcome)
    requires NUL !in line
    ensures o == ParseLine(line)
  {
    var m, l := START, 0;
    while true
      invariant 0 <= l <= |line| && Parse(m, line, l) == ParseLine(line)
      decreases |line| - l, Rereads(m)
    {
      var c := At(line, l);
      StopsAtNul(m, NUL);
      match React(m, c)
      case Stop(out) => return out;
      case Again(m') => m := m';
      case Next(m') => m, l := m', l + 1;
    }
  }

  // ---------------------------------------------------------------- printed lines

  /** A text without the characters that mean something to the parser. */
  predicate Free(s: string, special: string) {
    NUL !in s && '\n' !in s && '\\' !in s && forall c | c in special :: c !in s
  }

  /** Section names that can be printed and read back. */
  predicate GoodSection(s: string) {
    s != "" && Free(s, "]#;") && Trim(s, true) == s
  }

  /** Key names that can be printed and read back. */
  predicate GoodKey(s: string) {
    s != "" && Free(s, "=#;") && Normalize(s) == s && s[0] != '[' && s[0] != ']'
  }

  predicate GoodVal(s: string) { Free(s, "\"") }

  function PrintSection(name: string): string { "[" + name + "]" }

  function PrintSetting(key: string, val: string): string { "\t" + key + " = \"" + val + "\"" }

  /** Reading on through plain characters adds them to the section name. */
  lemma {:induction false} ReadsName(m: Machine, line: string, i: nat, j: nat)
    requires NUL !in line && i <= j <= |line| && m.mode == SectionName && !m.escaping && Free(line[i..j], "]#;")
    ensures Parse(m, line, i) == Parse(m.(section := m.section + line[i..j]), line, j)
    decreases j - i
  {
    if i == j {
      assert m.section + line[i..j] == m.section;
    } else {
      var m' := m.(section := m.section + [line[i]]);
      FreeHead(line, i, j, "]#;");
      assert React(m, At(line, i)) == Next(m');
      ReadsName(m', line, i + 1, j);
      OneMore(m.section, line, i, j);
    }
  }

  lemma {:induction false} ReadsKey(m: Machine, line: string, i: nat, j: nat)
    requires NUL !in line && i <= j <= |line| && m.mode == Key && !m.escaping && Free(line[i..j], "=#;")
    ensures Parse(m, line, i) == Parse(m.(key := m.key + line[i..j]), line, j)
    decreases j - i
  {
    if i == j {
      assert m.key + line[i..j] == m.key;
    } else {
      var m' := m.(key := m.key + [line[i]]);
      FreeHead(line, i, j, "=#;");
      assert React(m, At(line, i)) == Next(m');
      ReadsKey(m', line, i + 1, j);
      OneMore(m.key, line, i, j);
    }
  }

  lemma {:induction false} ReadsVal(m: Machine, line: string, i: nat, j: nat)
    requires NUL !in line && i <= j <= |line| && m.mode == QuotedVal && !m.escaping && Free(line[i..j], "\"")
    ensures Parse(m, line, i) == Parse(m.(val := m.val + line[i..j]), line, j)
    decreases j - i
  {
    if i == j {
      assert m.val + line[i..j] == m.val;
    } else {
      var m' := m.(val := m.val + [line[i]]);
      FreeHead(line, i, j, "\"");
      assert React(m, At(line, i)) == Next(m');
      ReadsVal(m', line, i + 1, j);
      OneMore(m.val, line, i, j);
    }
  }

  lemma FreeHead(line: string, i: nat, j: nat, special: string)
    requires i < j <= |line| && Free(line[i..j], special)
    ensures line[i] != NUL && line[i] != '\n' && line[i] != '\\' && line[i] !in special && Free(line[i + 1..j], special)
  {
    assert line[i..j][0] == line[i];
    assert line[i..j] == [line[i]] + line[i + 1..j];
  }

  lemma OneMore(s: string, line: string, i: nat, j: nat)
    requires i < j <= |line|
    ensures (s + [line[i]]) + line[i + 1..j] == s + line[i..j]
  {
  }

  /** A printed section header is read as that section. */
  lemma SectionReadsBack(name: string)
    requires GoodSection(name)
    ensures NUL !in PrintSection(name) && ParseLine(PrintSection(name)) == Line("", "", name)
  {
    var line := PrintSection(name);
    var n := |name|;
    assert line[0] == '[' && line[1..n + 1] == name && line[n + 1] == ']';
    var m := START.(mode := SectionName);
    assert React(START, At(line, 0)) == Next(m);
    ReadsName(m, line, 1, n + 1);
    var m2 := m.(section := m.section + line[1..n + 1]);
    assert m2.section == name;
    assert React(m2, At(line, n + 1)) == Next(m2.(mode := CommentStart));
    assert React(m2.(mode := CommentStart), At(line, n + 2)) == Stop(Line("", "", name));
  }

  predicate Plain(s: string) { NUL !in s && '\n' !in s }

  lemma FreeBlank(s: string, special: string)
    requires Free(s, special) && ' ' !in special
    ensures Free(s + " ", special)
  {
  }

  lemma KeyBegins(key: string, line: string, i: nat)
    requires GoodKey(key) && NUL !in line && i < |line| && line[i] == key[0]
    ensures Parse(START, line, i) == Parse(START.(mode := Key), line, i)
  {
    KeyStarts(key, line[i]);
    Reads(START, line, i);
  }

  lemma KeyEnds(key: string, line: string, j: nat)
    requires GoodKey(key) && NUL !in line && j < |line| && line[j] == '='
    ensures Parse(Machine(Key, key + " ", "", "", false), line, j) == Parse(Machine(ValStart, key, "", "", false), line, j + 1)
  {
    KeyBlank(key);
    Reads(Machine(Key, key + " ", "", "", false), line, j);
  }

  lemma KeyMiddle(text: string, line: string, i: nat, j: nat)
    requires NUL !in line && i <= j <= |line| && line[i..j] == text && Free(text, "=#;")
    ensures Parse(START.(mode := Key), line, i) == Parse(Machine(Key, text, "", "", false), line, j)
  {
    var m := START.(mode := Key);
    ReadsKey(m, line, i, j);
    assert m.key + line[i..j] == text;
  }

  /** A good key, a blank and a '=' are read, and the value is next. */
  lemma ReadsGoodKey(key: string, line: string, i: nat)
    requires GoodKey(key) && NUL !in line && i + |key| + 1 < |line|
    requires line[i..i + |key| + 1] == key + " " && line[i + |key| + 1] == '='
    ensures Parse(START, line, i) == Parse(Machine(ValStart, key, "", "", false), line, i + |key| + 2)
  {
    var j := i + |key| + 1;
    assert line[i] == line[i..j][0] == key[0];
    KeyBegins(key, line, i);
    FreeBlank(key, "=#;");
    KeyMiddle(key + " ", line, i, j);
    KeyEnds(key, line, j);
  }

  /** A printed setting with a good key is read up to the beginning of its value. */
  lemma ReadsToValue(key: string, val: string)
    requires GoodKey(key) && Plain(val)
    ensures Plain(PrintSetting(key, val))
    ensures ParseLine(PrintSetting(key, val)) == Parse(Machine(QuotedVal, key, "", "", false), PrintSetting(key, val), |key| + 5)
  {
    var line, n := PrintSetting(key, val), |key|;
    Layout(key, val);
    Reads(START, line, 0);
    ReadsGoodKey(key, line, 1);
    QuoteStarts(Machine(ValStart, key, "", "", false), line, n + 3);
  }

  lemma QuoteStarts(m: Machine, line: string, i: nat)
    requires NUL !in line && i + 1 < |line| && line[i] == ' ' && line[i + 1] == '"' && m.mode == ValStart
    ensures Parse(m, line, i) == Parse(m.(mode := QuotedVal), line, i + 2)
  {
    Reads(m, line, i);
    Reads(m, line, i + 1);
  }

  /** A printed setting is read as that setting. */
  lemma SettingReadsBack(key: string, val: string)
    requires GoodKey(key) && GoodVal(val)
    ensures NUL !in PrintSetting(key, val) && ParseLine(PrintSetting(key, val)) == Line(key, val, "")
  {
    var line, v := PrintSetting(key, val), |key| + 5;
    Layout(key, val);
    ReadsToValue(key, val);
    var m4 := Machine(QuotedVal, key, "", "", false);
    ReadsVal(m4, line, v, v + |val|);
    var m5 := m4.(val := m4.val + line[v..v + |val|]);
    assert m5.val == val;
    Reads(m5, line, v + |val|);
    Reads(m5.(mode := CommentStart), line, v + |val| + 1);
  }

  lemma Layout(key: string, val: string)
    requires Plain(key) && Plain(val)
    ensures var line, n := PrintSetting(key, val), |key|;
            && |line| == n + |val| + 6 && Plain(line) && line[0] == '\t' && line[1..n + 1] == key && line[1..n + 2] == key + " "
            && line[n + 1] == ' ' && line[n + 2] == '=' && line[n + 3] == ' ' && line[n + 4] == '"'
            && line[n + 5..n + 5 + |val|] == val && line[n + 5 + |val|] == '"'
  {
  }

  /** One reaction of the machine. */
  lemma Reads(m: Machine, line: string, i: nat)
    requires NUL !in line && i <= |line|
    ensures React(m, At(line, i)).Next? ==> i < |line| && Parse(m, line, i) == Parse(React(m, At(line, i)).m, line, i + 1)
    ensures React(m, At(line, i)).Again? ==> Parse(m, line, i) == Parse(React(m, At(line, i)).m, line, i)
    ensures React(m, At(line, i)).Stop? ==> Parse(m, line, i) == React(m, At(line, i)).outcome
  {
    StopsAtNul(m, NUL);
  }

  lemma KeyStarts(key: string, c: char)
    requires GoodKey(key) && c == key[0]
    ensures !IsSpace(c) && c != NUL && !IsComment(c)
  {
    NormalizeIdempotent(key);
    assert key[0] in key;
    assert '#' in "=#;" && ';' in "=#;";
  }

  lemma KeyBlank(key: string)
    requires GoodKey(key)
    ensures Normalize(key + " ") == key
  {
    NormalizeIdempotent(key);
    TrailingBlank(key, ' ');
  }

  // ---------------------------------------------------------------- nothing else reads back

  /** Past a value or a section name only the end of the line matters. */
  lemma {:induction false} CommentKeeps(m: Machine, line: string, i: nat)
    requires NUL !in line && i <= |line| && (m.mode == CommentStart || m.mode == CommentText)
    ensures Parse(m, line, i).Line? ==> Parse(m, line, i) == Done(m)
    decreases |line| - i
  {
    Reads(m, line, i);
    match React(m, At(line, i))
    case Next(m') => CommentKeeps(m', line, i + 1); CommentSame(m, m', line, i);
    case _ =>
  }

  lemma CommentSame(m: Machine, m': Machine, line: string, i: nat)
    requires i <= |line| && (m.mode == CommentStart || m.mode == CommentText) && React(m, At(line, i)) == Next(m')
    ensures Done(m') == Done(m)
  {
  }

  /** The key is fixed once the value starts. */
  predicate KeyRead(m: Machine) { m.mode != Init && m.mode != SectionName && m.mode != Key }

  lemma {:induction false} KeyStays(m: Machine, line: string, i: nat)
    requires NUL !in line && i <= |line| && KeyRead(m)
    ensures Parse(m, line, i).Line? ==> Parse(m, line, i).key == m.key
    decreases |line| - i, Rereads(m)
  {
    Reads(m, line, i);
    match React(m, At(line, i))
    case Next(m') => KeyStays(m', line, i + 1);
    case Again(m') => KeyStays(m', line, i);
    case Stop(_) =>
  }

  /** A line that starts like a section header is never read as a setting. */
  lemma {:induction false} SectionNamed(m: Machine, line: string, i: nat)
    requires NUL !in line && i <= |line| && m.mode == SectionName
    ensures Parse(m, line, i).Line? ==> Parse(m, line, i).section != ""
    decreases |line| - i
  {
    Reads(m, line, i);
    match React(m, At(line, i))
    case Next(m') =>
      if m'.mode == SectionName { SectionNamed(m', line, i + 1); } else { CommentKeeps(m', line, i + 1); }
    case _ =>
  }

  /** A key that is read is in normal form. */
  lemma {:induction false} KeyIsNormal(m: Machine, line: string, i: nat)
    requires NUL !in line && i <= |line| && m.mode == Key
    ensures Parse(m, line, i).Line? ==> Normal(Parse(m, line, i).key)
    decreases |line| - i
  {
    Reads(m, line, i);
    match React(m, At(line, i))
    case Next(m') =>
      if m'.mode == Key { KeyIsNormal(m', line, i + 1); } else { NormalizeNormal(m.key); KeyStays(m', line, i + 1); }
    case _ =>
  }

  /** From the start, a line is a setting with a key in normal form, a section header or empty. */
  lemma {:induction false} LineIsNormal(m: Machine, line: string, i: nat)
    requires NUL !in line && i <= |line| && m == START
    ensures var o := Parse(m, line, i); o.Line? ==> Normal(o.key) || o.section != ""
    decreases |line| - i
  {
    Reads(m, line, i);
    match React(m, At(line, i))
    case Next(m') =>
      if m'.mode == Init { LineIsNormal(m', line, i + 1); }
      else if m'.mode == SectionName { SectionNamed(m', line, i + 1); }
      else { CommentKeeps(m', line, i + 1); }
    case Again(m') => KeyIsNormal(m', line, i);
    case Stop(_) =>
  }

  lemma FreeTail(line: string, i: nat, j: nat, special: string)
    requires i < j <= |line| && Free(line[i + 1..j], special)
    requires line[i] != NUL && line[i] != '\n' && line[i] != '\\' && line[i] !in special
    ensures Free(line[i..j], special)
  {
    assert line[i..j] == [line[i]] + line[i + 1..j];
  }

  lemma FreeNone(special: string)
    ensures Free("", special)
  {
  }

  /** What is read of a quoted value that ends the line is never longer than what stands there, and as
      long only if that has no quote and no backslash. */
  lemma {:induction false} ValBound(m: Machine, line: string, i: nat)
    requires NUL !in line && '\n' !in line && i <= |line| && m.mode == QuotedVal
    ensures var o := Parse(m, line, i);
            o.Line? ==> i < |line| && |o.val| <= |m.val| + (|line| - 1 - i)
                        && (|o.val| == |m.val| + (|line| - 1 - i) && !m.escaping ==> Free(line[i..|line| - 1], "\""))
    decreases |line| - i
  {
    var o := Parse(m, line, i);
    Reads(m, line, i);
    if i < |line| {
      var m' := React(m, line[i]).m;
      if m'.mode == CommentStart {
        CommentKeeps(m', line, i + 1);
        FreeNone("\"");
      } else {
        ValBound(m', line, i + 1);
        if o.Line? && i + 1 < |line| && !m.escaping && line[i] != '\\' && Free(line[i + 1..|line| - 1], "\"") {
          FreeTail(line, i, |line| - 1, "\"");
        }
      }
    }
  }

  /** The same for a section name. */
  lemma {:induction false} NameBound(m: Machine, line: string, i: nat)
    requires NUL !in line && '\n' !in line && i <= |line| && m.mode == SectionName
    ensures var o := Parse(m, line, i);
            o.Line? ==> i < |line| && |o.section| <= |m.section| + (|line| - 1 - i)
                        && (|o.section| == |m.section| + (|line| - 1 - i) && !m.escaping ==> Free(line[i..|line| - 1], "]#;"))
    decreases |line| - i
  {
    var o := Parse(m, line, i);
    Reads(m, line, i);
    if i < |line| && React(m, line[i]).Next? {
      var m' := React(m, line[i]).m;
      if m'.mode == CommentStart {
        TrimShorter(m.section, true);
        CommentKeeps(m', line, i + 1);
        FreeNone("]#;");
      } else {
        NameBound(m', line, i + 1);
        if o.Line? && i + 1 < |line| && !m.escaping && line[i] != '\\' && Free(line[i + 1..|line| - 1], "]#;") {
          FreeTail(line, i, |line| - 1, "]#;");
        }
      }
    }
  }

  /** What is read of a key up to the '=' at e, which follows a blank: it ends there and is as long as what
      stands there only if that has no syntax characters. */
  lemma {:induction false} KeyBound(m: Machine, line: string, i: nat, e: nat)
    requires NUL !in line && '\n' !in line && 0 < i <= e < |line| && line[e] == '=' && line[e - 1] == ' '
    requires m.mode == Key && (i == e ==> !m.escaping && m.key != "" && m.key[|m.key| - 1] == ' ')
    ensures var o := Parse(m, line, i);
            o.Line? ==> |o.key| < |m.key| + (e - i)
                        && (|o.key| + 1 == |m.key| + (e - i) && !m.escaping ==> Free(line[i..e], "=#;"))
    decreases |line| - i
  {
    var o := Parse(m, line, i);
    Reads(m, line, i);
    if React(m, line[i]).Next? {
      var m' := React(m, line[i]).m;
      if m'.mode == ValStart {
        TrimShorter(m.key, true);
        KeyStays(m', line, i + 1);
        FreeNone("=#;");
      } else {
        KeyBound(m', line, i + 1, e);
        if o.Line? && !m.escaping && line[i] != '\\' && Free(line[i + 1..e], "=#;") { FreeTail(line, i, e, "=#;"); }
      }
    }
  }

  /** A setting without a key is not read as one. */
  lemma NoKey(val: string)
    requires Plain(val)
    ensures Plain(PrintSetting("", val)) && ParseLine(PrintSetting("", val)) == Wrong
  {
    var line := PrintSetting("", val);
    Layout("", val);
    Reads(START, line, 0);
    Reads(START, line, 1);
    Reads(START, line, 2);
    Reads(START.(mode := Key), line, 2);
    NormalStays("");
  }

  /** A printed setting that reads back starts to be read as a key. */
  lemma StartsKey(key: string, val: string)
    requires Plain(key) && Plain(val) && Plain(PrintSetting(key, val)) && ParseLine(PrintSetting(key, val)) == Line(key, val, "")
    ensures key != "" && Normal(key) && key[0] != '[' && key[0] != ']'
    ensures ParseLine(PrintSetting(key, val)) == Parse(START.(mode := Key), PrintSetting(key, val), 1)
  {
    var line := PrintSetting(key, val);
    Layout(key, val);
    LineIsNormal(START, line, 0);
    if key == "" { NoKey(val); }
    Reads(START, line, 0);
    assert line[1] == key[0];
    Reads(START, line, 1);
    if React(START, line[1]).Next? {
      var m' := React(START, line[1]).m;
      if m'.mode == SectionName { SectionNamed(m', line, 2); } else { CommentKeeps(m', line, 2); }
    }
  }

  lemma KeyReadsBack(key: string, val: string)
    requires Plain(key) && Plain(val) && Plain(PrintSetting(key, val)) && ParseLine(PrintSetting(key, val)) == Line(key, val, "")
    ensures GoodKey(key)
  {
    var line, n := PrintSetting(key, val), |key|;
    Layout(key, val);
    StartsKey(key, val);
    KeyBound(START.(mode := Key), line, 1, n + 2);
    assert Free(key + " ", "=#;");
    forall c | c in key ensures c in key + " " {}
    NormalStays(key);
  }

  lemma ValReadsBack(key: string, val: string)
    requires Plain(val) && GoodKey(key) && Plain(PrintSetting(key, val)) && ParseLine(PrintSetting(key, val)) == Line(key, val, "")
    ensures GoodVal(val)
  {
    var line, n := PrintSetting(key, val), |key|;
    Layout(key, val);
    ReadsToValue(key, val);
    ValBound(Machine(QuotedVal, key, "", "", false), line, n + 5);
    assert |line| - 1 == n + 5 + |val|;
  }

  /** A printed setting is read as that setting if and only if its key is in normal form and neither has
      characters that mean something to the parser: the printer escapes nothing. */
  lemma SettingReadsBackIff(key: string, val: string)
    requires Plain(key) && Plain(val)
    ensures Plain(PrintSetting(key, val))
    ensures ParseLine(PrintSetting(key, val)) == Line(key, val, "") <==> GoodKey(key) && GoodVal(val)
  {
    Layout(key, val);
    if ParseLine(PrintSetting(key, val)) == Line(key, val, "") {
      KeyReadsBack(key, val);
      ValReadsBack(key, val);
    }
    if GoodKey(key) && GoodVal(val) { SettingReadsBack(key, val); }
  }

  /** The same for a section header. */
  lemma SectionReadsBackIff(name: string)
    requires Plain(name)
    ensures Plain(PrintSection(name))
    ensures ParseLine(PrintSection(name)) == Line("", "", name) <==> GoodSection(name)
  {
    var line, n := PrintSection(name), |name|;
    assert |line| == n + 2 && line[0] == '[' && line[1..n + 1] == name && line[n + 1] == ']';
    if ParseLine(line) == Line("", "", name) {
      var m := START.(mode := SectionName);
      Reads(START, line, 0);
      NameBound(m, line, 1);
      SectionNamed(m, line, 1);
      assert Free(line[1..n + 1], "]#;");
      ReadsName(m, line, 1, n + 1);
      var m2 := m.(section := m.section + line[1..n + 1]);
      assert m2.section == name;
      Reads(m2, line, n + 1);
      CommentKeeps(React(m2, line[n + 1]).m, line, n + 2);
    }
    if GoodSection(name) { SectionReadsBack(name); }
  }

  lemma EscapedStart(m: Machine, line: string, i: nat)
    requires NUL !in line && |line| == i + 3 && line[i] == ' ' && line[i + 1] == '\\' && m.mode == ValStart && !m.escaping
    ensures Parse(m, line, i) == Parse(m.(mode := UnquotedVal, escaping := true), line, i + 2)
  {
    Reads(m, line, i);
    Reads(m, line, i + 1);
    Reads(m.(mode := UnquotedVal), line, i + 1);
  }

  lemma EscapedEnd(m: Machine, line: string, i: nat)
    requires NUL !in line && |line| == i + 1 && m.mode == UnquotedVal && m.escaping
    ensures Parse(m, line, i) == Line(m.key, Trim(m.val + [line[i]], false), m.section)
  {
    var u := m.(escaping := false, val := m.val + [line[i]]);
    Reads(m, line, i);
    Reads(u, line, i + 1);
  }

  lemma EscapedQuote(m: Machine, line: string, i: nat, quote: string)
    requires NUL !in line && |line| == i + 3 && line[i] == ' ' && line[i + 1] == '\\' && quote == [line[i + 2]] && !IsSpace(line[i + 2])
    requires m.mode == ValStart && m.val == "" && m.section == "" && !m.escaping
    ensures Parse(m, line, i) == Line(m.key, quote, "")
  {
    EscapedStart(m, line, i);
    EscapedEnd(m.(mode := UnquotedVal, escaping := true), line, i + 2);
    assert m.val + [line[i + 2]] == quote;
    TrimmedStays(quote);
  }

  lemma QuoteLayout(key: string, line: string, quote: string)
    requires NUL !in key && quote == ['"'] && line == key + " = " + ['\\'] + quote
    ensures var n := |key|;
            && |line| == n + 5 && NUL !in line && line[0..n + 1] == key + " " && line[n + 1] == '='
            && line[n + 2] == ' ' && line[n + 3] == '\\' && line[n + 4] == '"'
  {
  }

  /** A value that can be loaded and does not come back: a quote, which is escaped in the line. */
  lemma QuoteIsLost(key: string, line: string, quote: string)
    requires GoodKey(key) && quote == ['"'] && line == key + " = " + ['\\'] + quote
    ensures NUL !in line && ParseLine(line) == Line(key, quote, "")
    ensures Plain(PrintSetting(key, quote)) && ParseLine(PrintSetting(key, quote)) != Line(key, quote, "")
  {
    var n := |key|;
    QuoteLayout(key, line, quote);
    ReadsGoodKey(key, line, 0);
    EscapedQuote(Machine(ValStart, key, "", "", false), line, n + 2, quote);
    SettingReadsBackIff(key, quote);
    assert quote[0] in quote;
  }
}
