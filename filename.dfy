/** The measurement file name (pybaseline_loop.py:96-101):
    `re.match(r".*?_([0-9]{2})_SWV_(C[0-9]{2})_loop([0-9]+)\.txt$", name)`
    extracts the variant, the channel and the loop number. */
module FileName {
  import opened Base

  /** The parts of `<prefix>_<variant>_SWV_<channel>_loop<loop>.txt`. */
  datatype NameFields = NameFields(prefix: string, variant: string, channel: string, loop: string)

  /** What each part of the pattern admits: `.*?` any characters but a
      newline, `[0-9]{2}`, `C[0-9]{2}` and `[0-9]+`. */
  predicate WellFormed(f: NameFields)
  {
    && (forall i :: 0 <= i < |f.prefix| ==> f.prefix[i] != '\n')
    && |f.variant| == 2 && AllDigits(f.variant)
    && |f.channel| == 3 && f.channel[0] == 'C' && AllDigits(f.channel[1..])
    && |f.loop| > 0 && AllDigits(f.loop)
  }

  /** The fixed part between the prefix and the loop number. */
  function Tag(f: NameFields): string
  {
    "_" + f.variant + "_SWV_" + f.channel + "_loop"
  }

  /** The file name a set of fields stands for. */
  function Compose(f: NameFields): string
  {
    f.prefix + Tag(f) + f.loop + ".txt"
  }

  /** `$` matches at the very end of the name or before one final newline. */
  function StripFinalNewline(name: string): (s: string)
    ensures name == s || name == s + "\n"
  {
    if |name| > 0 && name[|name| - 1] == '\n' then
      assert name == name[..|name| - 1] + "\n";
      name[..|name| - 1]
    else name
  }

  /** The 16 characters `_<variant>_SWV_<channel>_loop` at the end of `head`,
      and the newline-free prefix before them, for loop number `loop`. */
  function SplitHead(head: string, loop: string): (r: Option<NameFields>)
    ensures r.Some? ==> WellFormed(r.value) && r.value.loop == loop && head == r.value.prefix + Tag(r.value)
  {
    if |head| < 16 then None
    else
      var tag := head[|head| - 16..];
      var f := NameFields(head[..|head| - 16], tag[1..3], tag[8..11], loop);
      if tag == Tag(f) && WellFormed(f) then
        assert head == f.prefix + tag;
        Some(f)
      else None
  }

  /** The match of everything up to `$`: the name ends in `.txt`, the loop
      number is the whole digit run before it, and the tag precedes that run. */
  function ParseStem(s: string): (r: Option<NameFields>)
    ensures r.Some? ==> WellFormed(r.value) && s == Compose(r.value)
  {
    if |s| < 4 || s[|s| - 4..] != ".txt" then None
    else
      var body := s[..|s| - 4];
      var k := TrailingDigitCount(body);
      if k == 0 then None
      else
        var loop := body[|body| - k..];
        var r := SplitHead(body[..|body| - k], loop);
        if r.Some? then
          assert body == body[..|body| - k] + loop;
          assert s == body + ".txt";
          r
        else None
  }

  /** The match performed by `re.match` on a file name. Every name it
      accepts is the composition of well-formed fields, possibly followed by
      the newline that `$` tolerates. */
  function ParseFileName(name: string): (r: Option<NameFields>)
    ensures r.Some? ==> WellFormed(r.value)
    ensures r.Some? ==> name == Compose(r.value) || name == Compose(r.value) + "\n"
  {
    ParseStem(StripFinalNewline(name))
  }

  lemma SplitHeadOfTag(f: NameFields)
    requires WellFormed(f)
    ensures SplitHead(f.prefix + Tag(f), f.loop) == Some(f)
  {
    var head := f.prefix + Tag(f);
    var tag := head[|head| - 16..];
    assert tag == Tag(f);
    assert head[..|head| - 16] == f.prefix;
    assert tag[1..3] == f.variant && tag[8..11] == f.channel;
  }

  lemma ParseStemOfCompose(f: NameFields)
    requires WellFormed(f)
    ensures ParseStem(Compose(f)) == Some(f)
  {
    var name := Compose(f);
    var head := f.prefix + Tag(f);
    var body := head + f.loop;
    assert name == body + ".txt";
    assert name[..|name| - 4] == body;
    assert name[|name| - 4..] == ".txt";
    assert head[|head| - 1] == 'p';
    TrailingDigitsOfRun(head, f.loop);
    assert body[..|body| - |f.loop|] == head;
    assert body[|body| - |f.loop|..] == f.loop;
    SplitHeadOfTag(f);
  }

  /** Every well-formed name is recognised, with or without the final
      newline that `$` tolerates, giving back exactly its fields. */
  lemma ParseCompose(f: NameFields)
    requires WellFormed(f)
    ensures ParseFileName(Compose(f)) == Some(f)
    ensures ParseFileName(Compose(f) + "\n") == Some(f)
  {
    var name := Compose(f);
    assert name[|name| - 1] == 't';
    assert (name + "\n")[..|name + "\n"| - 1] == name;
    assert StripFinalNewline(name) == name;
    assert StripFinalNewline(name + "\n") == name;
    ParseStemOfCompose(f);
  }

  /** A name the parser rejects is not of the required form: the file is
      skipped, not analysed. */
  lemma ParseRejectsOnlyForeignNames(name: string)
    requires ParseFileName(name).None?
    ensures forall f :: WellFormed(f) ==> name != Compose(f) && name != Compose(f) + "\n"
  {
    forall f | WellFormed(f)
      ensures name != Compose(f) && name != Compose(f) + "\n"
    {
      ParseCompose(f);
    }
  }
}
