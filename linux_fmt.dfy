/**
  The debugger's error taxonomy on Linux and the sentence its `Debug`
  implementation writes for each kind (debugger/src/linux/fmt.rs).
  The native error carried by `Kernel` is represented by its own
  display text, which this model takes as given.
 */
module LinuxFmt {
  import opened Wrappers
  import opened Decimal
  import opened Text

  datatype Error =
    | InvalidPathName
    | IncompleteRead(req: Usize, res: Usize)
    | IncompleteWrite(req: Usize, res: Usize)
    | Kernel(description: string)

  /**
    The backslash is escaped: the sentence holds `\` and `0`, not a NUL
    character. It is written in two pieces because the verifier only sees
    the characters of a short string literal.
   */
  const INVALID_PATH_NAME: string := "There appears to be a " + "'\\0' in the path name."
  const READ_PREFIX: string := "Tried to read "
  const READ_MIDDLE: string := " bytes, only read "
  const WRITE_PREFIX: string := "Tried to write "
  const WRITE_MIDDLE: string := " bytes, only wrote "

  /** A sentence reporting two byte counts between fixed pieces of text. */
  function Counts(prefix: string, middle: string, req: nat, res: nat): string {
    prefix + Dec(req) + middle + Dec(res) + "."
  }

  /** The message written for an error; every message ends with a full stop. */
  function Render(e: Error): (r: string)
    ensures |r| > 0 && r[|r| - 1] == '.'
  {
    match e
    case InvalidPathName => INVALID_PATH_NAME
    case IncompleteRead(req, res) => Counts(READ_PREFIX, READ_MIDDLE, req, res)
    case IncompleteWrite(req, res) => Counts(WRITE_PREFIX, WRITE_MIDDLE, req, res)
    case Kernel(description) => description + "."
  }

  /**
    Recovers the two counts from a sentence built by `Counts` with the
    given fixed pieces.
   */
  function ParseCounts(s: string, prefix: string, middle: string): (r: Option<(Usize, Usize)>)
    ensures r.Some? ==> s == Counts(prefix, middle, r.value.0, r.value.1)
  {
    var rest := StripPrefix(s, prefix);
    if rest.None? then None
    else
      var first := ReadUsize(rest.value);
      if first.None? then None
      else
        var tail := StripPrefix(first.value.1, middle);
        if tail.None? then None
        else
          var second := ReadUsize(tail.value);
          if second.None? || second.value.1 != "." then None
          else
            var req, res := first.value.0, second.value.0;
            CountsSplit(s, prefix, middle, req, res, rest.value, first.value.1, tail.value);
            Some((req, res))
  }

  lemma CountsSplit(s: string, prefix: string, middle: string, req: nat, res: nat,
                    rest: string, after: string, tail: string)
    requires s == prefix + rest && rest == Dec(req) + after
    requires after == middle + tail && tail == Dec(res) + "."
    ensures s == Counts(prefix, middle, req, res)
  {
  }

  /** The counts in a sentence are found again when the fixed middle does not start with a digit. */
  lemma ParseCountsOfCounts(prefix: string, middle: string, req: Usize, res: Usize)
    requires middle != [] && !IsDigit(middle[0])
    ensures ParseCounts(Counts(prefix, middle, req, res), prefix, middle) == Some((req, res))
  {
    var tail := Dec(res) + ".";
    var after := middle + tail;
    var rest := Dec(req) + after;
    assert Counts(prefix, middle, req, res) == prefix + rest;
    StripPrefixOfConcat(prefix, rest);
    ReadUsizeOfDec(req, after);
    StripPrefixOfConcat(middle, tail);
    ReadUsizeOfDec(res, ".");
  }

  /**
    Reads a message back as the error that wrote it. A `Kernel` message is
    never produced: its text is whatever the operating system says, so it
    cannot be told apart from the other kinds by its text (see
    `KernelMayImitate`).
   */
  function Decode(s: string): (r: Option<Error>)
    ensures r.Some? ==> !r.value.Kernel? && Render(r.value) == s
  {
    if s == INVALID_PATH_NAME then Some(InvalidPathName)
    else match ParseCounts(s, READ_PREFIX, READ_MIDDLE)
      case Some((req, res)) => Some(IncompleteRead(req, res))
      case None =>
        match ParseCounts(s, WRITE_PREFIX, WRITE_MIDDLE)
        case Some((req, res)) => Some(IncompleteWrite(req, res))
        case None => None
  }

  /** Every message of a kind other than `Kernel` decodes to the error that wrote it. */
  lemma DecodeRender(e: Error)
    requires !e.Kernel?
    ensures Decode(Render(e)) == Some(e)
  {
    match e
    case InvalidPathName =>
    case IncompleteRead(req, res) => DecodeIncompleteRead(req, res);
    case IncompleteWrite(req, res) => DecodeIncompleteWrite(req, res);
  }

  lemma DecodeIncompleteRead(req: Usize, res: Usize)
    ensures Decode(Render(IncompleteRead(req, res))) == Some(IncompleteRead(req, res))
  {
    var s := Counts(READ_PREFIX, READ_MIDDLE, req, res);
    assert s[1] == 'r' && INVALID_PATH_NAME[1] == 'h';
    ParseCountsOfCounts(READ_PREFIX, READ_MIDDLE, req, res);
  }

  lemma DecodeIncompleteWrite(req: Usize, res: Usize)
    ensures Decode(Render(IncompleteWrite(req, res))) == Some(IncompleteWrite(req, res))
  {
    var s := Counts(WRITE_PREFIX, WRITE_MIDDLE, req, res);
    assert s[1] == 'r' && INVALID_PATH_NAME[1] == 'h';
    assert s[9] == 'w' && READ_PREFIX[9] == 'r';
    assert StripPrefix(s, READ_PREFIX).None?;
    assert ParseCounts(s, READ_PREFIX, READ_MIDDLE).None?;
    ParseCountsOfCounts(WRITE_PREFIX, WRITE_MIDDLE, req, res);
  }

  /**
    Apart from `Kernel`, the message determines the error: different kinds
    never share a message, and different counts never render alike.
   */
  lemma RenderInjective(e1: Error, e2: Error)
    requires !e1.Kernel? && !e2.Kernel?
    ensures Render(e1) == Render(e2) ==> e1 == e2
  {
    DecodeRender(e1);
    DecodeRender(e2);
  }

  /** A `Kernel` message is the native description with one full stop after it, nothing before. */
  lemma KernelDescriptionRecovered(description: string)
    ensures var r := Render(Kernel(description));
      |r| == |description| + 1 && r[..|r| - 1] == description
  {
  }

  /** Any message at all can also be the message of some `Kernel` error. */
  lemma KernelMayImitate(e: Error)
    ensures exists description :: Render(Kernel(description)) == Render(e)
  {
    var r := Render(e);
    var description := r[..|r| - 1];
    assert Render(Kernel(description)) == r;
  }

  /**
    The invalid-path sentence quotes a backslash followed by `0` right after
    "There appears to be a ", and holds no NUL character.
   */
  lemma InvalidPathNameIsEscaped()
    ensures '\0' !in Render(InvalidPathName)
    ensures var lead := |"There appears to be a "|;
      Render(InvalidPathName)[lead..lead + 4] == ['\'', '\\', '0', '\'']
  {
  }
}
