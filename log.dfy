/**
 * Log: a console logger with a type per message. In production only the
 * heavier types get through; each printed line is the list of arguments
 * handed to console.log: a styled header (timestamp, type name and stack
 * position), its style, an optional description line, and the message.
 *
 * The clock reading and the stack position text are inputs; the console
 * itself is not modelled, only the arguments it receives.
 */
module Logging {
  import opened Common

  /**
   * The keys of LOG_CONFIG; a name the two plain objects inherit from
   * Object.prototype; and any other string a JavaScript caller may pass.
   * TypeOf says which a given string is.
   */
  datatype LogType = Net | Model | Business | View | Config | Trace | Error | Warning | Inherited(member: string) | Unknown(name: string)

  /** The type a string passed as `type` denotes. */
  function TypeOf(s: string): (t: LogType)
    ensures t.Inherited? <==> s in PrototypeNames
    ensures t.Inherited? ==> t.member == s
    ensures t.Unknown? ==> t.name == s && s !in PrototypeNames
  {
    match s
    case "NET" => Net
    case "MODEL" => Model
    case "BUSINESS" => Business
    case "VIEW" => View
    case "CONFIG" => Config
    case "TRACE" => Trace
    case "ERROR" => Error
    case "WARNING" => Warning
    case _ => if s in PrototypeNames then Inherited(s) else Unknown(s)
  }

  datatype LogLevel = Debug | Prod

  /**
   * LEVEL_WEIGHTS, with `|| 0` for the types it does not list. An inherited
   * name finds a function (or, for `__proto__`, an object) there instead of
   * a number; it has no weight here and Printed treats it apart.
   */
  function Weight(t: LogType): nat
  {
    match t
    case Error => 4
    case Warning => 3
    case Net => 2
    case Business => 2
    case Trace => 1
    case _ => 0
  }

  /** Whether `log` prints a message of type `t` at level `level`. */
  predicate Printed(level: LogLevel, t: LogType)
  {
    level == Debug || t.Inherited? || Weight(t) >= 2
  }

  /**
   * Debug prints every type. Production prints errors, warnings, network
   * and business messages, and drops TRACE (weight 1), the unweighted
   * MODEL, VIEW and CONFIG and any unknown string. An inherited name gets
   * through: its "weight" is not a number, so `weight < 2` compares NaN and
   * is false.
   */
  lemma ProductionFilter(s: string)
    ensures Printed(Debug, TypeOf(s))
    ensures Printed(Prod, TypeOf(s)) <==> s in {"ERROR", "WARNING", "NET", "BUSINESS"} || s in PrototypeNames
  {
  }

  /**
   * LOG_CONFIG: the display name of a type; an unknown type renders as
   * "undefined", and an inherited one as the text of what it finds: a
   * native function's source text (`constructor` is `Object`), or
   * "[object Object]" for `__proto__`.
   */
  function TypeName(t: LogType): string
  {
    match t
    case Net => "网络日志"
    case Model => "数据日志"
    case Business => "业务日志"
    case View => "视图日志"
    case Config => "配置日志"
    case Trace => "标准日志"
    case Error => "错误日志"
    case Warning => "警告日志"
    case Inherited(m) =>
      if m == "__proto__" then "[object Object]"
      else NativeSource(if m == "constructor" then "Object" else m)
    case Unknown(_) => "undefined"
  }

  /** How a native function named `name` prints its own source text. */
  function NativeSource(name: string): string
  {
    "function " + name + "() { [native code] }"
  }

  /** STYLE_MAP, with `|| ''` for a type it does not hold (a Map inherits no keys). */
  function Style(t: LogType): string
  {
    match t
    case Net => "color:#00ffff;"
    case Model => "color:#ff6100;"
    case Business => "color:#00ff00;"
    case View => "color:#ff00ff;"
    case Config => "color:#808080;"
    case Trace => "color:#808080;"
    case Error => "color:#ff0000;font-weight:bold;"
    case Warning => "color:#ffff00;font-weight:bold;"
    case _ => ""
  }

  /** Only a type outside the map gets the empty style. */
  lemma StyleDefault(t: LogType)
    ensures Style(t) == "" <==> t.Unknown? || t.Inherited?
  {
  }

  function DigitChar(d: nat): char
    requires d < 10
  {
    "0123456789"[d]
  }

  function DigitValue(c: char): nat
  {
    if '0' <= c <= '9' then (c as int - '0' as int) as nat else 0
  }

  /** `num.toString()` for a non-negative integer. */
  function DecimalText(n: nat): (r: seq<char>)
    ensures 1 <= |r|
    ensures forall i :: 0 <= i < |r| ==> '0' <= r[i] <= '9'
  {
    if n < 10 then [DigitChar(n)] else DecimalText(n / 10) + [DigitChar(n % 10)]
  }

  /** The number a string of decimal digits denotes. */
  function DecimalValue(s: seq<char>): nat
  {
    if s == [] then 0 else DecimalValue(s[..|s| - 1]) * 10 + DigitValue(s[|s| - 1])
  }

  /** `s.padStart(width, '0')`: zeros in front up to the width; a longer string is left as it is. */
  function PadStart(s: seq<char>, width: nat): seq<char>
  {
    if |s| >= width then s else Zeros(width - |s|) + s
  }

  function Zeros(k: nat): (r: seq<char>)
    ensures |r| == k && forall i :: 0 <= i < k ==> r[i] == '0'
  {
    if k == 0 then [] else Zeros(k - 1) + ['0']
  }

  /** `pad`: two digits. */
  function Pad(n: nat): seq<char>
  {
    PadStart(DecimalText(n), 2)
  }

  /** `padMs`: three digits. */
  function PadMs(n: nat): seq<char>
  {
    PadStart(DecimalText(n), 3)
  }

  lemma {:induction false} DecimalRoundTrip(n: nat)
    ensures DecimalValue(DecimalText(n)) == n
  {
    if n >= 10 {
      DecimalRoundTrip(n / 10);
      var s := DecimalText(n / 10) + [DigitChar(n % 10)];
      assert s[..|s| - 1] == DecimalText(n / 10);
    }
  }

  lemma {:induction false} DecimalShort(n: nat, width: nat, bound: nat)
    requires 1 <= width && n < bound
    requires bound == (if width == 1 then 10 else if width == 2 then 100 else 1000) && width <= 3
    decreases width
    ensures |DecimalText(n)| <= width
  {
    if n >= 10 {
      DecimalShort(n / 10, width - 1, if width == 2 then 10 else 100);
    }
  }

  /** Leading zeros do not change the value. */
  lemma {:induction false} LeadingZeros(k: nat, s: seq<char>)
    decreases |s|
    ensures DecimalValue(Zeros(k) + s) == DecimalValue(s)
  {
    if s == [] {
      assert Zeros(k) + s == Zeros(k);
      ZerosValue(k);
    } else {
      var t := Zeros(k) + s;
      assert t[..|t| - 1] == Zeros(k) + s[..|s| - 1];
      LeadingZeros(k, s[..|s| - 1]);
    }
  }

  lemma {:induction false} ZerosValue(k: nat)
    ensures DecimalValue(Zeros(k)) == 0
  {
    if k > 0 {
      ZerosValue(k - 1);
      assert Zeros(k)[..k - 1] == Zeros(k - 1);
    }
  }

  /** A clock field below 10^width pads to exactly `width` digits that read back as the field. */
  lemma PadExact(n: nat, width: nat, bound: nat)
    requires 1 <= width <= 3 && n < bound
    requires bound == (if width == 1 then 10 else if width == 2 then 100 else 1000)
    ensures |PadStart(DecimalText(n), width)| == width
    ensures DecimalValue(PadStart(DecimalText(n), width)) == n
  {
    DecimalShort(n, width, bound);
    DecimalRoundTrip(n);
    LeadingZeros(width - |DecimalText(n)|, DecimalText(n));
  }

  /** getLogTimestamp: `[HH:MM:SS.mmm]` from the clock reading. */
  function Timestamp(hours: nat, minutes: nat, seconds: nat, millis: nat): string
  {
    "[" + Pad(hours) + ":" + Pad(minutes) + ":" + Pad(seconds) + "." + PadMs(millis) + "]"
  }

  /** Where the fields sit in the `[HH:MM:SS.mmm]` template. */
  lemma TemplateFields(hh: string, mm: string, ss: string, ms: string)
    requires |hh| == 2 && |mm| == 2 && |ss| == 2 && |ms| == 3
    ensures var ts := "[" + hh + ":" + mm + ":" + ss + "." + ms + "]";
            && |ts| == 14
            && ts[0] == '[' && ts[3] == ':' && ts[6] == ':' && ts[9] == '.' && ts[13] == ']'
            && ts[1..3] == hh && ts[4..6] == mm && ts[7..9] == ss && ts[10..13] == ms
  {
  }

  /**
   * For a reading of a wall clock the timestamp is fourteen characters,
   * `[HH:MM:SS.mmm]`, and each field reads back as the clock's value.
   */
  lemma TimestampLayout(hours: nat, minutes: nat, seconds: nat, millis: nat)
    requires hours < 24 && minutes < 60 && seconds < 60 && millis < 1000
    ensures var ts := Timestamp(hours, minutes, seconds, millis);
            && |ts| == 14
            && ts[0] == '[' && ts[3] == ':' && ts[6] == ':' && ts[9] == '.' && ts[13] == ']'
            && DecimalValue(ts[1..3]) == hours && DecimalValue(ts[4..6]) == minutes
            && DecimalValue(ts[7..9]) == seconds && DecimalValue(ts[10..13]) == millis
  {
    PadExact(hours, 2, 100);
    PadExact(minutes, 2, 100);
    PadExact(seconds, 2, 100);
    PadExact(millis, 3, 1000);
    TemplateFields(Pad(hours), Pad(minutes), Pad(seconds), PadMs(millis));
  }

  /** An argument of console.log: a string, or the message object itself. */
  datatype Part = Str(text: string) | Message(msg: nat)

  /**
   * print: the header, its style, the description line when a non-empty
   * description is given (an empty one is falsy), and the message.
   */
  function PrintParts(t: LogType, msg: nat, description: Option<string>, timestamp: string, stackInfo: string): seq<Part>
  {
    [Str("%c" + timestamp + "[" + TypeName(t) + "]" + stackInfo), Str(Style(t))]
    + (if description.Some? && description.value != "" then [Str("\n  ↳ " + description.value + ":")] else [])
    + [Message(msg)]
  }

  /**
   * log: `None` when the level filter drops the message, otherwise the
   * arguments printed. With the stack trace disabled the position is empty.
   */
  function Log(level: LogLevel, msg: nat, t: LogType, description: Option<string>, timestamp: string,
               stackTrace: bool, stackInfo: string): Option<seq<Part>>
  {
    if !Printed(level, t) then None
    else Some(PrintParts(t, msg, description, timestamp, if stackTrace then stackInfo else ""))
  }

  /** The source text of Object.prototype.toString, as a native function prints it. */
  const ToStringSource := NativeSource("toString")

  /**
   * In production a message typed "toString" is printed, headed by the
   * source text of Object.prototype.toString and with no style.
   */
  lemma InheritedNameLogged(msg: nat, timestamp: string)
    ensures Log(Prod, msg, TypeOf("toString"), None, timestamp, false, "")
         == Some([Str("%c" + timestamp + "[" + ToStringSource + "]"), Str(""), Message(msg)])
  {
    ToStringIsInherited();
    ToStringName();
    InheritedLogged("toString", msg, timestamp);
  }

  lemma ToStringIsInherited()
    ensures TypeOf("toString") == Inherited("toString")
  {
    assert "toString" in PrototypeNames;
  }

  lemma ToStringName()
    ensures TypeName(Inherited("toString")) == ToStringSource
  {
    assert |"toString"| != |"__proto__"| && |"toString"| != |"constructor"|;
  }

  /** In production an inherited type is printed with its header, no style and no description. */
  lemma InheritedLogged(m: string, msg: nat, timestamp: string)
    ensures Log(Prod, msg, Inherited(m), None, timestamp, false, "")
         == Some([Str("%c" + timestamp + "[" + TypeName(Inherited(m)) + "]"), Str(""), Message(msg)])
  {
    var t := Inherited(m);
    var header := "%c" + timestamp + "[" + TypeName(t) + "]";
    assert header + "" == header;
    assert Printed(Prod, t);
    assert Style(t) == "";
    assert PrintParts(t, msg, None, timestamp, "") == [Str(header), Str("")] + [] + [Message(msg)];
    assert [Str(header), Str("")] + [] + [Message(msg)] == [Str(header), Str(""), Message(msg)];
  }

  /**
   * A printed line has the header and the style first and the message
   * last; it has a description line exactly when a non-empty description
   * was given; and a message is printed exactly when the filter lets its
   * type through.
   */
  lemma LogShape(level: LogLevel, msg: nat, t: LogType, description: Option<string>, timestamp: string,
                 stackTrace: bool, stackInfo: string)
    ensures Log(level, msg, t, description, timestamp, stackTrace, stackInfo).Some? <==> Printed(level, t)
    ensures var r := Log(level, msg, t, description, timestamp, stackTrace, stackInfo);
            r.Some? ==>
              && |r.value| == (if description.Some? && description.value != "" then 4 else 3)
              && r.value[1] == Str(Style(t)) && r.value[|r.value| - 1] == Message(msg)
              && r.value[0].Str? && r.value[0].text[..2] == "%c"
              && (!stackTrace ==> r.value[0].text == "%c" + timestamp + "[" + TypeName(t) + "]")
  {
  }
}
