/** Log sinks as objects, and the delivery of one record to all of them. */
module Logging {
  import opened Format

  datatype Record = Record(level: nat, attributes: Attributes)

  /** The levels are numbered DEBUG 0, INFO 1, WARN 2, ERROR 3, FATAL 4. */
  const WARN: nat := 2

  const DEFAULT_FORMAT: string := "[{time}][{level}][{logger_name}]: {message}"

  const DEFAULT_PARTS: seq<Part> :=
    [Constant("["), Key("time"), Constant("]["), Key("level"),
     Constant("]["), Key("logger_name"), Constant("]: "), Key("message")]

  lemma DefaultIsNormal()
    ensures NormalForm(DEFAULT_PARTS)
  {
    hide PartOk;
    TextsAreOk();
    NamesAreOk();
  }

  lemma TextsAreOk()
    ensures PartOk(Constant("[")) && PartOk(Constant("][")) && PartOk(Constant("]: "))
  {
  }

  lemma NamesAreOk()
    ensures PartOk(Key("time")) && PartOk(Key("level")) && PartOk(Key("logger_name")) && PartOk(Key("message"))
  {
  }

  lemma DefaultSource()
    ensures Source(DEFAULT_PARTS) == DEFAULT_FORMAT
  {
    var s, p := DEFAULT_FORMAT, DEFAULT_PARTS;
    assert |s| == 43;
    hide Source, DEFAULT_FORMAT, DEFAULT_PARTS;
    DefaultTexts();
    DefaultTime();
    DefaultLevel();
    DefaultLoggerName();
    DefaultMessage();
    NoSource();
    SourceFrom(s, 31, 34, 43, "]: ", "message", []);
    SourceFrom(s, 16, 18, 31, "][", "logger_name", p[6..]) by { DefaultPairs(); }
    SourceFrom(s, 7, 9, 16, "][", "level", p[4..]) by { DefaultPairs(); }
    SourceFrom(s, 0, 1, 7, "[", "time", p[2..]) by { DefaultPairs(); }
    DefaultPairs();
  }

  lemma DefaultPairs()
    ensures |DEFAULT_PARTS| == 8
    ensures DEFAULT_PARTS[6..] == [Constant("]: "), Key("message")] + []
    ensures DEFAULT_PARTS[4..] == [Constant("]["), Key("logger_name")] + DEFAULT_PARTS[6..]
    ensures DEFAULT_PARTS[2..] == [Constant("]["), Key("level")] + DEFAULT_PARTS[4..]
    ensures DEFAULT_PARTS == [Constant("["), Key("time")] + DEFAULT_PARTS[2..]
  {
  }

  lemma DefaultTexts()
    ensures |DEFAULT_FORMAT| == 43
    ensures DEFAULT_FORMAT[0..1] == "[" && DEFAULT_FORMAT[31..34] == "]: "
    ensures DEFAULT_FORMAT[7..9] == "][" && DEFAULT_FORMAT[16..18] == "]["
  {
    var s := DEFAULT_FORMAT;
    assert s[0..1] == [s[0]] && s[31..34] == [s[31], s[32], s[33]];
    assert s[7..9] == [s[7], s[8]] && s[16..18] == [s[16], s[17]];
    assert s[7] == s[16] == ']' && s[8] == s[17] == '[';
  }

  lemma DefaultTime()
    ensures |DEFAULT_FORMAT| == 43 && DEFAULT_FORMAT[1..7] == "{" + "time" + "}"
  {
    var s, key := DEFAULT_FORMAT, ['{', 't', 'i', 'm', 'e', '}'];
    assert key == "{" + "time" + "}";
    forall k | 0 <= k < 6
      ensures s[1..7][k] == key[k]
    {
      assert s[1..7][k] == s[1 + k];
    }
  }

  lemma DefaultLevel()
    ensures |DEFAULT_FORMAT| == 43 && DEFAULT_FORMAT[9..16] == "{" + "level" + "}"
  {
    var s, key := DEFAULT_FORMAT, ['{', 'l', 'e', 'v', 'e', 'l', '}'];
    assert key == "{" + "level" + "}";
    forall k | 0 <= k < 7
      ensures s[9..16][k] == key[k]
    {
      assert s[9..16][k] == s[9 + k];
    }
  }

  lemma DefaultLoggerName()
    ensures |DEFAULT_FORMAT| == 43 && DEFAULT_FORMAT[18..31] == "{" + "logger_name" + "}"
  {
    var s, key := DEFAULT_FORMAT, ['{', 'l', 'o', 'g', 'g', 'e', 'r', '_', 'n', 'a', 'm', 'e', '}'];
    assert key == "{" + "logger_name" + "}";
    forall k | 0 <= k < 13
      ensures s[18..31][k] == key[k]
    {
      assert s[18..31][k] == s[18 + k];
    }
  }

  lemma DefaultMessage()
    ensures |DEFAULT_FORMAT| == 43 && DEFAULT_FORMAT[34..43] == "{" + "message" + "}"
  {
    var s, key := DEFAULT_FORMAT, ['{', 'm', 'e', 's', 's', 'a', 'g', 'e', '}'];
    assert key == "{" + "message" + "}";
    forall k | 0 <= k < 9
      ensures s[34..43][k] == key[k]
    {
      assert s[34..43][k] == s[34 + k];
    }
  }

  /** A constant and a key whose texts are cut from `s`, in front of what makes up the rest of `s`. */
  lemma SourceFrom(s: string, a: nat, b: nat, c: nat, text: string, name: string, rest: seq<Part>)
    requires a <= b <= c <= |s| && s[a..b] == text && s[b..c] == "{" + name + "}" && Source(rest) == s[c..]
    ensures Source([Constant(text), Key(name)] + rest) == s[a..]
  {
    var p := [Constant(text), Key(name)] + rest;
    assert p[1..][1..] == rest;
    assert s[a..] == s[a..b] + (s[b..c] + s[c..]);
  }

  lemma NoSource()
    ensures Source([]) == ""
  {
  }

  class LogSink {
    var parts: seq<Part>
    var level: nat
    var stored: seq<string>

    constructor ()
      ensures parts == [Constant("["), Key("time"), Constant("]["), Key("level"),
                        Constant("]["), Key("logger_name"), Constant("]: "), Key("message")]
      ensures level == 2 && stored == []
    {
      parts, level, stored := [], WARN, [];
      new;
      hide Compile, NormalForm, Source, Render, Substitute;
      SetFormat(DEFAULT_FORMAT);
      DefaultIsNormal();
      DefaultSource();
      NormalFormUnique(parts, DEFAULT_PARTS);
    }

    /** Replaces the compiled format by the one normal form of `format`: putting the braces back gives
        the string, and rendering is substitution in the string. */
    method SetFormat(format: string)
      modifies this`parts
      ensures parts == Compile(format, 0)
      ensures NormalForm(parts) && Source(parts) == format
      ensures forall m :: Render(parts, m) == Substitute(format, 0, m)
    {
      hide IsPlaceholder, MatchEnd, Search, NormalForm, Source, Render, Substitute;
      parts := [];
      var lastEnd := 0;
      var at := Search(format, 0);
      while at < |format|
        invariant lastEnd <= at <= |format| && at == Search(format, lastEnd)
        invariant parts + Compile(format, lastEnd) == Compile(format, 0)
        decreases |format| - lastEnd
      {
        ghost var before, from := parts, lastEnd;
        var end := MatchEnd(format, at);
        if lastEnd != at {
          parts := parts + [Constant(format[lastEnd..at])];
        }
        parts := parts + [Key(format[at + 1..end - 1])];
        lastEnd := end;
        CompileStep(format, from, before, parts);
        assert parts + Compile(format, lastEnd) == Compile(format, 0);
        at := Search(format, lastEnd);
      }
      assert Compile(format, lastEnd) == ConstantPart(format, lastEnd, |format|);
      if lastEnd != |format| {
        parts := parts + [Constant(format[lastEnd..])];
      }
      assert format[lastEnd..] == format[lastEnd..|format|];
      assert parts == Compile(format, 0);
      CompiledIsNormal(format, 0);
      SourceCompiled(format, 0);
      forall m: Attributes
        ensures Render(parts, m) == Substitute(format, 0, m)
      {
        RenderCompiled(format, 0, m);
      }
    }

    /** Stores the rendered record if its level is not lower than the level of the sink. */
    method PushRecord(record: Record)
      modifies this`stored
      ensures stored == old(stored) + if record.level >= level then [Render(parts, record.attributes)] else []
    {
      if record.level >= level {
        var line := "";
        var i := 0;
        while i < |parts|
          invariant i <= |parts|
          invariant line + Render(parts[i..], record.attributes) == Render(parts, record.attributes)
          invariant stored == old(stored)
        {
          assert parts[i..][1..] == parts[i + 1..];
          Associates(line, RenderPart(parts[i], record.attributes), Render(parts[i + 1..], record.attributes));
          line := line + RenderPart(parts[i], record.attributes);
          i := i + 1;
        }
        assert line + "" == line;
        stored := stored + [line];
      }
    }
  }

  /** One turn of the compiling loop moves one placeholder, and the constant before it, to the parts. */
  lemma {:induction false} CompileStep(s: string, from: nat, before: seq<Part>, after: seq<Part>)
    requires from <= |s| && Search(s, from) < |s|
    requires var p := Search(s, from);
      after == before + (if from != p then [Constant(s[from..p])] else []) + [Key(s[p + 1..MatchEnd(s, p) - 1])]
    ensures after + Compile(s, MatchEnd(s, Search(s, from))) == before + Compile(s, from)
  {
    hide IsPlaceholder, MatchEnd, Search, ConstantPart;
    var p := Search(s, from);
    var text, key := ConstantPart(s, from, p), [Key(s[p + 1..MatchEnd(s, p) - 1])];
    ConstantIs(s, from, p);
    PartsAssociate(before, text, key, Compile(s, MatchEnd(s, p)));
  }

  lemma ConstantIs(s: string, from: nat, to: nat)
    requires from <= to <= |s|
    ensures ConstantPart(s, from, to) == if from != to then [Constant(s[from..to])] else []
  {
  }

  lemma PartsAssociate(a: seq<Part>, b: seq<Part>, c: seq<Part>, d: seq<Part>)
    ensures a + b + c + d == a + (b + c + d)
  {
  }

  /** Delivers a record to every sink in order; no other attribute of a sink changes. */
  method Deliver(sinks: seq<LogSink>, record: Record)
    requires forall i, j :: 0 <= i < j < |sinks| ==> sinks[i] != sinks[j]
    modifies sinks
    ensures forall i :: 0 <= i < |sinks| ==>
      && sinks[i].parts == old(sinks[i].parts) && sinks[i].level == old(sinks[i].level)
      && sinks[i].stored == old(sinks[i].stored)
           + if record.level >= sinks[i].level then [Render(sinks[i].parts, record.attributes)] else []
  {
    var k := 0;
    while k < |sinks|
      invariant k <= |sinks|
      invariant forall i :: 0 <= i < |sinks| ==>
        sinks[i].parts == old(sinks[i].parts) && sinks[i].level == old(sinks[i].level)
      invariant forall i :: 0 <= i < k ==>
        sinks[i].stored == old(sinks[i].stored)
          + if record.level >= sinks[i].level then [Render(sinks[i].parts, record.attributes)] else []
      invariant forall i :: k <= i < |sinks| ==> sinks[i].stored == old(sinks[i].stored)
    {
      sinks[k].PushRecord(record);
      k := k + 1;
    }
  }
}
