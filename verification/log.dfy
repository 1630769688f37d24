/** The map crate's console logger (map/src/utils/log.rs): a global level
    held in an atomic byte, a table of per-category switches, one base
    function that gates a message on both and writes it to the matching
    console method with a fixed header, and a `{}`-placeholder formatter.
    The two globals become a `Config` value passed in and returned; the
    console becomes the `Outcome` a call produces. */
module Log {
  import opened Common
  import opened Text

  /** `LogLevel`, ordered by its discriminant; `Off` is the source's
      `LogLevel::None`, which switches logging off. */
  datatype Level = Debug | Info | Warn | Error | Off

  /** The discriminant `level as u8`. */
  function Code(l: Level): (c: nat)
    ensures c <= 4
    ensures l == Debug <==> c == 0
    ensures l == Off <==> c == 4
  {
    match l
    case Debug => 0
    case Info => 1
    case Warn => 2
    case Error => 3
    case Off => 4
  }

  /** The derived `PartialOrd` on levels compares discriminants. */
  predicate Below(a: Level, b: Level) {
    Code(a) < Code(b)
  }

  /** `LogCategory`. */
  datatype Category = Map | Simulation | App | General

  /** The discriminant `category as usize`, the index of its switch. */
  function Index(c: Category): (i: nat)
    ensures i < 4
  {
    match c
    case Map => 0
    case Simulation => 1
    case App => 2
    case General => 3
  }

  /** `LogCategory::as_str`: the tag printed in the header. */
  function AsStr(c: Category): (s: string)
    ensures |s| == 3
  {
    match c
    case Map => "MAP"
    case Simulation => "SIM"
    case App => "APP"
    case General => "GEN"
  }

  /** `ENABLED_CATEGORIES`: five switches, one more than there are
      categories. */
  type Switches = s: seq<bool> | |s| == 5 witness [true, true, true, true, true]

  /** The two globals: the stored level byte and the category switches. */
  datatype Config = Config(stored: nat, switches: Switches)

  /** The state at start-up: level Info, every category enabled. */
  function Initial(): (cfg: Config)
    ensures GetLogLevel(cfg) == Info
    ensures forall c: Category :: IsCategoryEnabled(cfg, c)
  {
    Config(Code(Info), [true, true, true, true, true])
  }

  /** `get_log_level`: bytes 0 to 3 name a level, anything else reads as
      `None`. */
  function GetLogLevel(cfg: Config): (l: Level)
    ensures cfg.stored < 4 ==> Code(l) == cfg.stored
    ensures cfg.stored >= 4 ==> l == Off
  {
    match cfg.stored
    case 0 => Debug
    case 1 => Info
    case 2 => Warn
    case 3 => Error
    case _ => Off
  }

  /** `set_log_level`: stores the discriminant; the switches are kept. */
  function SetLogLevel(cfg: Config, l: Level): (r: Config)
    ensures r.switches == cfg.switches
    ensures GetLogLevel(r) == l
  {
    cfg.(stored := Code(l))
  }

  /** Reading the level back gives the level last set, for every level,
      and leaves every category switch as it was. */
  lemma SetThenGetLevel(cfg: Config, l: Level)
    ensures GetLogLevel(SetLogLevel(cfg, l)) == l
    ensures forall c: Category :: IsCategoryEnabled(SetLogLevel(cfg, l), c) == IsCategoryEnabled(cfg, c)
  {
  }

  /** `set_category_enabled`: overwrites the category's switch. */
  function SetCategoryEnabled(cfg: Config, c: Category, enabled: bool): (r: Config)
    ensures r.stored == cfg.stored
  {
    cfg.(switches := cfg.switches[Index(c) := enabled])
  }

  /** `is_category_enabled`. */
  predicate IsCategoryEnabled(cfg: Config, c: Category) {
    cfg.switches[Index(c)]
  }

  /** A switch reads back as set, and no other category is affected. */
  lemma SetThenIsEnabled(cfg: Config, c: Category, enabled: bool)
    ensures IsCategoryEnabled(SetCategoryEnabled(cfg, c, enabled), c) == enabled
    ensures forall d: Category :: d != c ==>
              IsCategoryEnabled(SetCategoryEnabled(cfg, c, enabled), d) == IsCategoryEnabled(cfg, d)
    ensures GetLogLevel(SetCategoryEnabled(cfg, c, enabled)) == GetLogLevel(cfg)
  {
  }

  /** The console methods `log_base` chooses between. */
  datatype Console = ConsoleDebug | ConsoleLog | ConsoleWarn | ConsoleError

  /** What one logging call does: nothing, one console line, or the
      `unreachable!()` panic that `log_base` reaches for level `None`. */
  datatype Outcome = Suppressed | Emitted(via: Console, text: string) | Panicked

  /** The gate shared by `log_base` and `format_and_log`: the message's
      level must not be below the global level, and its category must be
      switched on. */
  predicate Passes(cfg: Config, level: Level, c: Category) {
    !Below(level, GetLogLevel(cfg)) && IsCategoryEnabled(cfg, c)
  }

  /** The level's header prefix. */
  function Prefix(level: Level): string
    requires level != Off
  {
    match level
    case Debug => "[DEBUG]"
    case Info => "[INFO]"
    case Warn => "[WARN]"
    case Error => "[ERROR]"
  }

  /** The console method a level is written with. */
  function MethodFor(level: Level): (m: Console)
    requires level != Off
    ensures level == Debug <==> m == ConsoleDebug
    ensures level == Info <==> m == ConsoleLog
    ensures level == Warn <==> m == ConsoleWarn
    ensures level == Error <==> m == ConsoleError
  {
    match level
    case Debug => ConsoleDebug
    case Info => ConsoleLog
    case Warn => ConsoleWarn
    case Error => ConsoleError
  }

  /** The header before the message: prefix, bracketed category tag, and
      the bracketed source when there is one. */
  function Header(level: Level, c: Category, source: Option<string>): string
    requires level != Off
  {
    match source
    case Some(src) => Prefix(level) + " [" + AsStr(c) + "] [" + src + "] "
    case None => Prefix(level) + " [" + AsStr(c) + "] "
  }

  /** `log_base`. */
  function LogBase(cfg: Config, level: Level, c: Category, message: string, source: Option<string>): (r: Outcome)
    ensures r.Suppressed? <==> !Passes(cfg, level, c)
    ensures r.Panicked? <==> Passes(cfg, level, c) && level == Off
    ensures r.Emitted? ==> level != Off && r.via == MethodFor(level)
    ensures r.Emitted? ==>
              && |r.text| >= |message|
              && r.text[|r.text| - |message|..] == message
              && r.text[..|r.text| - |message|] == Header(level, c, source)
  {
    if !Passes(cfg, level, c) then Suppressed
    else if level == Off then Panicked
    else
      var text := Header(level, c, source) + message;
      assert text[|text| - |message|..] == message;
      assert text[..|text| - |message|] == Header(level, c, source);
      Emitted(MethodFor(level), text)
  }

  /** The first characters of a console line say which level and category
      wrote it: two lines with the same text agree on both. */
  lemma HeaderIdentifies(l1: Level, c1: Category, s1: Option<string>, m1: string,
                         l2: Level, c2: Category, s2: Option<string>, m2: string)
    requires l1 != Off && l2 != Off
    requires Header(l1, c1, s1) + m1 == Header(l2, c2, s2) + m2
    ensures l1 == l2 && c1 == c2
  {
    var t := Header(l1, c1, s1) + m1;
    HeaderShape(l1, c1, s1, m1);
    HeaderShape(l2, c2, s2, m2);
    PrefixDetermined(l1, l2, t);
  }

  /** Where the prefix and the category tag sit in a console line. */
  lemma HeaderShape(l: Level, c: Category, source: Option<string>, m: string)
    requires l != Off
    ensures var t, p := Header(l, c, source) + m, Prefix(l);
            |t| > |p| + 5 && t[..|p|] == p && t[|p|+ 2..|p| + 5] == AsStr(c)
  {
    var p, a := Prefix(l), AsStr(c);
    match source
    case Some(src) =>
      var rest := "] [" + src + "] " + m;
      HeaderRegrouped(p + " [" + a, "] [" + src + "] ", m);
      TagAt(p, a, rest);
    case None =>
      var rest := "] " + m;
      HeaderRegrouped(p + " [" + a, "] ", m);
      TagAt(p, a, rest);
  }

  lemma HeaderRegrouped(head: string, tail: string, m: string)
    ensures head + tail + m == head + (tail + m)
  {
  }

  /** Slicing a text assembled as prefix, " [", tag and rest. */
  lemma TagAt(p: string, a: string, rest: string)
    requires |rest| > 0
    ensures var t := p + " [" + a + rest;
            t[..|p|] == p && t[|p| + 2..|p| + 2 + |a|] == a
  {
  }

  /** Only one prefix fits at the start of a text followed by a space. */
  lemma PrefixDetermined(l1: Level, l2: Level, t: string)
    requires l1 != Off && l2 != Off
    requires |t| > |Prefix(l1)| + 5 && |t| > |Prefix(l2)| + 5
    requires t[..|Prefix(l1)|] == Prefix(l1) && t[..|Prefix(l2)|] == Prefix(l2)
    ensures l1 == l2
  {
    var p1, p2 := Prefix(l1), Prefix(l2);
    assert t[1] == p1[1] == p2[1];
    assert t[2] == p1[2] == p2[2];
  }

  /** Raising a message's level never silences it: a line emitted at one
      level would be emitted at every higher level short of `None`. */
  lemma GateMonotone(cfg: Config, l1: Level, l2: Level, c: Category, message: string, source: Option<string>)
    requires LogBase(cfg, l1, c, message, source).Emitted?
    requires Code(l1) <= Code(l2) && l2 != Off
    ensures LogBase(cfg, l2, c, message, source).Emitted?
  {
  }

  /** Setting the global level to `None` silences every message of a real
      level; under the start-up configuration Info, Warn and Error are
      written and Debug is not. */
  lemma OffSilences(cfg: Config, level: Level, c: Category, message: string, source: Option<string>)
    ensures level != Off ==> LogBase(SetLogLevel(cfg, Off), level, c, message, source) == Suppressed
    ensures LogBase(Initial(), level, c, message, source).Suppressed? <==> level == Debug
  {
  }

  /** A disabled category is silent at every level. */
  lemma DisabledSilences(cfg: Config, level: Level, c: Category, message: string, source: Option<string>)
    ensures LogBase(SetCategoryEnabled(cfg, c, false), level, c, message, source) == Suppressed
  {
  }

  /** `file!():line!()`, the source text of `debug_with_source`. */
  function SourceInfo(file: string, line: nat): (s: string)
    ensures |s| > |file| && s[..|file|] == file && s[|file|] == ':'
  {
    file + ":" + NatToString(line)
  }

  /** `ContextLogger`: a context shown as the source of every line. */
  datatype ContextLogger = ContextLogger(context: string, category: Category)

  /** `ContextLogger::debug/info/warn/error`. */
  function ContextLog(logger: ContextLogger, cfg: Config, level: Level, message: string): (r: Outcome)
    ensures r.Emitted? ==> level != Off && r.text == Header(level, logger.category, Some(logger.context)) + message
  {
    LogBase(cfg, level, logger.category, message, Some(logger.context))
  }

  /** `debug_enabled`: the message closure is run only when the global
      level is Debug; its result is then logged at Debug in General. The
      closure becomes the text it would produce, and the result says
      whether it was run. */
  function DebugEnabled(cfg: Config, produced: string): (r: (bool, Outcome))
    ensures r.0 <==> GetLogLevel(cfg) == Debug
    ensures !r.0 ==> r.1 == Suppressed
  {
    if Code(GetLogLevel(cfg)) <= Code(Debug) then (true, LogBase(cfg, Debug, General, produced, None))
    else (false, Suppressed)
  }

  /** Running the closure is never wasted on the level: whenever it runs,
      the line is emitted unless its category is switched off, and
      whenever it is skipped, logging it would have been suppressed. */
  lemma DebugClosureOnlyWhenUseful(cfg: Config, produced: string)
    ensures DebugEnabled(cfg, produced).0 ==>
              (DebugEnabled(cfg, produced).1.Emitted? <==> IsCategoryEnabled(cfg, General))
    ensures !DebugEnabled(cfg, produced).0 ==> LogBase(cfg, Debug, General, produced, None) == Suppressed
  {
  }

  // ---------------------------------------------------------------------
  // format_and_log

  const Placeholder := "{}"

  /** The substitution loop as written: each argument in turn replaces the
      first `{}` of the text built so far, searching from the start, so a
      `{}` that an earlier argument brought in is filled before the
      format's own. An argument with no `{}` left is dropped. */
  function SubstituteAsWritten(s: string, args: seq<string>): (r: string)
    ensures IndexOf(s, Placeholder, 0).None? ==> r == s
    decreases |args|
  {
    if |args| == 0 then s
    else
      SubstituteAsWritten(ReplaceFirst(s, Placeholder, args[0]), args[1..])
  }

  /** The message `format_and_log` hands on as written: the format itself
      when there are no arguments. */
  function MessageAsWritten(fmt: string, args: seq<string>): string {
    if |args| == 0 then fmt else SubstituteAsWritten(fmt, args)
  }

  /** `format_and_log` as written: the same gate as `log_base`, then
      `log_base` on the substituted message without a source. */
  function FormatAndLogAsWritten(cfg: Config, level: Level, c: Category, fmt: string, args: seq<string>): (r: Outcome)
    ensures r.Suppressed? <==> !Passes(cfg, level, c)
    ensures r.Emitted? ==> level != Off && r.text == Header(level, c, None) + MessageAsWritten(fmt, args)
  {
    if !Passes(cfg, level, c) then Suppressed
    else LogBase(cfg, level, c, MessageAsWritten(fmt, args), None)
  }

  /** The format "{} and {}" with the arguments "{}" and "x" should read
      "{} and x"; as written the second argument lands in the placeholder
      the first one brought in, giving "x and {}". */
  lemma InsertedPlaceholderRefilled()
    ensures MessageAsWritten("{} and {}", ["{}", "x"]) == "x and {}"
    ensures FillPlaceholders("{} and {}", ["{}", "x"]) == "{} and x"
  {
    AsWrittenRefills();
    CorrectedKeepsOrder();
  }

  /** The loop as written on that example. */
  lemma AsWrittenRefills()
    ensures MessageAsWritten("{} and {}", ["{}", "x"]) == "x and {}"
  {
    var fmt := "{} and {}";
    assert At(fmt, Placeholder, 0);
    IndexOfFirst(fmt, 0);
    var s1 := ReplaceFirst(fmt, Placeholder, "{}");
    assert s1 == fmt;
    var s2 := ReplaceFirst(s1, Placeholder, "x");
    assert s2 == "x" + fmt[2..];
    assert SubstituteAsWritten(s2, []) == s2;
  }

  /** The corrected substitution on that example. */
  lemma CorrectedKeepsOrder()
    ensures FillPlaceholders("{} and {}", ["{}", "x"]) == "{} and x"
  {
    var pieces, args := ["", " and ", ""], ["{}", "x"];
    ExamplePieces(pieces, args);
    FillPlaceholdersInOrder(pieces, args);
  }

  lemma ExamplePieces(pieces: seq<string>, args: seq<string>)
    requires pieces == ["", " and ", ""] && args == ["{}", "x"]
    ensures Join(pieces, Placeholder) == "{} and {}"
    ensures forall i :: 0 <= i < |pieces| ==> !HasPlaceholder(pieces[i])
    ensures Interleave(pieces, args) == "{} and x"
  {
    assert Join(pieces[2..], Placeholder) == "";
    assert Join(pieces[1..], Placeholder) == " and {}";
    forall i | 0 <= i < |pieces|
      ensures !HasPlaceholder(pieces[i])
    {
      BraceFreeHasNone(pieces[i]);
    }
    assert Interleave(pieces[2..], args[2..]) == "";
    assert Interleave(pieces[1..], args[1..]) == " and x";
  }

  /** A placeholder at `k` with none before it is the first one found. */
  lemma IndexOfFirst(s: string, k: nat)
    requires At(s, Placeholder, k)
    requires forall i: nat :: i < k ==> !At(s, Placeholder, i)
    ensures IndexOf(s, Placeholder, 0) == Some(k)
  {
  }

  /** Whether a piece of text contains the placeholder. */
  predicate HasPlaceholder(s: string) {
    exists j: nat :: j < |s| && At(s, Placeholder, j)
  }

  /** The pieces interleaved with the arguments: the k-th gap gets the
      k-th argument, and a gap without an argument keeps its `{}`. Surplus
      arguments are dropped. */
  function Interleave(pieces: seq<string>, args: seq<string>): (r: string)
    requires |pieces| > 0
    decreases |pieces|
  {
    if |pieces| == 1 then pieces[0]
    else if |args| == 0 then pieces[0] + Placeholder + Interleave(pieces[1..], [])
    else pieces[0] + args[0] + Interleave(pieces[1..], args[1..])
  }

  /** The intended substitution: the format is cut at its own placeholders
      once, and the arguments go into the gaps left to right, so nothing an
      argument contains is ever read as a placeholder. */
  function FillPlaceholders(fmt: string, args: seq<string>): (r: string)
    ensures |args| == 0 ==> r == fmt
  {
    var pieces := SplitOn(fmt, Placeholder);
    InterleaveNoArgs(pieces);
    SplitOnJoin(fmt, Placeholder);
    Interleave(pieces, args)
  }

  /** With no arguments every gap keeps its placeholder. */
  lemma {:induction false} InterleaveNoArgs(pieces: seq<string>)
    requires |pieces| > 0
    ensures Interleave(pieces, []) == Join(pieces, Placeholder)
    decreases |pieces|
  {
    if |pieces| > 1 {
      InterleaveNoArgs(pieces[1..]);
    }
  }

  /** Cutting a text built from placeholder-free pieces at its placeholders
      gives the pieces back. */
  lemma {:induction false} PlaceholderPieces(pieces: seq<string>)
    requires |pieces| > 0
    requires forall i :: 0 <= i < |pieces| ==> !HasPlaceholder(pieces[i])
    ensures SplitOn(Join(pieces, Placeholder), Placeholder) == pieces
    decreases |pieces|
  {
    var j := Join(pieces, Placeholder);
    var p := pieces[0];
    if |pieces| == 1 {
      assert !HasPlaceholder(p);
      assert IndexOf(j, Placeholder, 0).None?;
    } else {
      var rest := Join(pieces[1..], Placeholder);
      assert j == p + Placeholder + rest;
      assert j[|p|..|p| + 2] == Placeholder;
      forall k: nat | k < |p|
        ensures !At(j, Placeholder, k)
      {
        NoEarlierPlaceholder(p, rest, k);
      }
      IndexOfFirst(j, |p|);
      assert j[|p| + 2..] == rest;
      assert j[..|p|] == p;
      PlaceholderPieces(pieces[1..]);
    }
  }

  /** A placeholder-free piece followed by `{}` has no placeholder
      starting inside the piece. */
  lemma NoEarlierPlaceholder(p: string, rest: string, k: nat)
    requires !HasPlaceholder(p) && k < |p|
    ensures !At(p + Placeholder + rest, Placeholder, k)
  {
    var j := p + Placeholder + rest;
    if k + 2 <= |p| {
      assert j[k..k + 2] == p[k..k + 2];
      assert !At(p, Placeholder, k);
    } else {
      assert j[k + 1] == '{';
    }
  }

  /** What the corrected formatter promises: for a format made of
      placeholder-free pieces, the k-th placeholder is replaced by the k-th
      argument, whatever the arguments contain. */
  lemma FillPlaceholdersInOrder(pieces: seq<string>, args: seq<string>)
    requires |pieces| > 0
    requires forall i :: 0 <= i < |pieces| ==> !HasPlaceholder(pieces[i])
    ensures FillPlaceholders(Join(pieces, Placeholder), args) == Interleave(pieces, args)
  {
    PlaceholderPieces(pieces);
  }

  /** Whether a text contains no brace at all. */
  predicate BraceFree(s: string) {
    forall i :: 0 <= i < |s| ==> s[i] != '{' && s[i] != '}'
  }

  /** A brace-free text has nothing left to substitute. */
  lemma {:induction false} SubstituteBraceFreeText(s: string, args: seq<string>)
    requires BraceFree(s)
    ensures SubstituteAsWritten(s, args) == s
    decreases |args|
  {
    BraceFreeHasNone(s);
    if |args| > 0 {
      SubstituteBraceFreeText(s, args[1..]);
    }
  }

  /** The loop as written, on text whose only braces are the remaining
      placeholders after a brace-free part already filled in. */
  lemma {:induction false} SubstituteBraceFree(done: string, pieces: seq<string>, args: seq<string>)
    requires |pieces| > 0 && BraceFree(done)
    requires forall i :: 0 <= i < |pieces| ==> BraceFree(pieces[i])
    requires forall i :: 0 <= i < |args| ==> BraceFree(args[i])
    ensures SubstituteAsWritten(done + Join(pieces, Placeholder), args) == done + Interleave(pieces, args)
    decreases |args|
  {
    if |args| == 0 {
      InterleaveNoArgs(pieces);
    } else if |pieces| == 1 {
      BraceFreeConcat(done, pieces[0]);
      SubstituteBraceFreeText(done + pieces[0], args);
    } else {
      var head := done + pieces[0];
      var rest := Join(pieces[1..], Placeholder);
      assert done + Join(pieces, Placeholder) == head + Placeholder + rest;
      BraceFreeConcat(done, pieces[0]);
      ReplaceAtHead(head, rest, args[0]);
      BraceFreeConcat(head, args[0]);
      SubstituteBraceFree(head + args[0], pieces[1..], args[1..]);
      var tail := Interleave(pieces[1..], args[1..]);
      assert Interleave(pieces, args) == pieces[0] + args[0] + tail;
      ConcatAssoc(done, pieces[0], args[0], tail);
    }
  }

  /** Regrouping four concatenated texts. */
  lemma ConcatAssoc(a: string, b: string, c: string, d: string)
    ensures a + b + c + d == a + (b + c + d)
  {
  }

  /** Brace-free texts stay brace-free when joined. */
  lemma BraceFreeConcat(a: string, b: string)
    requires BraceFree(a) && BraceFree(b)
    ensures BraceFree(a + b)
  {
  }

  /** A brace-free text contains no placeholder. */
  lemma BraceFreeHasNone(s: string)
    requires BraceFree(s)
    ensures !HasPlaceholder(s)
    ensures forall j: nat :: !At(s, Placeholder, j)
  {
    forall j: nat | j + 2 <= |s|
      ensures !At(s, Placeholder, j)
    {
      assert s[j..j + 2][0] == s[j];
    }
  }

  /** After a brace-free head, the first placeholder is the one that
      follows it. */
  lemma ReplaceAtHead(head: string, rest: string, arg: string)
    requires BraceFree(head)
    ensures ReplaceFirst(head + Placeholder + rest, Placeholder, arg) == head + arg + rest
  {
    var s := head + Placeholder + rest;
    assert s[|head|..|head| + 2] == Placeholder;
    forall k: nat | k < |head|
      ensures !At(s, Placeholder, k)
    {
      assert s[k..k + 2][0] == s[k] == head[k];
    }
    IndexOfFirst(s, |head|);
    assert s[..|head|] == head && s[|head| + 2..] == rest;
  }

  /** The bug needs braces: when neither the format's text nor the
      arguments contain any brace outside the format's placeholders, the
      loop as written gives the intended message. */
  lemma AsWrittenAgreesWithoutBraces(pieces: seq<string>, args: seq<string>)
    requires |pieces| > 0
    requires forall i :: 0 <= i < |pieces| ==> BraceFree(pieces[i])
    requires forall i :: 0 <= i < |args| ==> BraceFree(args[i])
    ensures MessageAsWritten(Join(pieces, Placeholder), args) == FillPlaceholders(Join(pieces, Placeholder), args)
  {
    SubstituteBraceFree("", pieces, args);
    assert "" + Join(pieces, Placeholder) == Join(pieces, Placeholder);
    forall i | 0 <= i < |pieces|
      ensures !HasPlaceholder(pieces[i])
    {
      BraceFreeHasNone(pieces[i]);
    }
    FillPlaceholdersInOrder(pieces, args);
  }

  /** `format_and_log` with the corrected substitution. */
  function FormatAndLog(cfg: Config, level: Level, c: Category, fmt: string, args: seq<string>): (r: Outcome)
    ensures r.Suppressed? <==> !Passes(cfg, level, c)
    ensures r.Emitted? ==> level != Off && r.text == Header(level, c, None) + FillPlaceholders(fmt, args)
    ensures |args| == 0 ==> r == LogBase(cfg, level, c, fmt, None)
  {
    if !Passes(cfg, level, c) then Suppressed
    else LogBase(cfg, level, c, FillPlaceholders(fmt, args), None)
  }
}
