/** Reading back the command line stored in a `Run` value: the quoted image, the
    special argument, then the caller's extra arguments. */
module RunEntry {
  import opened Results
  import opened Text
  import opened Registration

  datatype Command = Command(image: string, startupArgument: string, rest: string)

  /** Splits `"<image>" <tail>` into the image and the tail. */
  function SplitQuoted(v: string): (r: Option<(string, string)>)
    ensures r.Some? ==> '"' !in r.value.0
  {
    if |v| == 0 || v[0] != '"' then None
    else
      var close := IndexOf(v[1..], '"');
      if close + 2 < |v| && v[close + 2] == ' ' then Some((v[1..close + 1], v[close + 3..]))
      else None
  }

  /** Splits `<token> <tail>` at the first space. */
  function SplitToken(t: string): (r: Option<(string, string)>)
    ensures r.Some? ==> ' ' !in r.value.0
  {
    var sp := IndexOf(t, ' ');
    if sp == |t| then None else Some((t[..sp], t[sp + 1..]))
  }

  /** Splits `"<image>" <argument> <rest>`. */
  function ParseRunValue(v: string): (r: Option<Command>)
    ensures r.Some? ==> '"' !in r.value.image && ' ' !in r.value.startupArgument
  {
    match SplitQuoted(v)
    case None => None
    case Some((image, tail)) =>
      match SplitToken(tail)
      case None => None
      case Some((argument, rest)) => Some(Command(image, argument, rest))
  }

  /** The first `c` in `a + [c] + b` is the one after `a` when `a` has none. */
  lemma IndexOfAfter(a: string, c: char, b: string)
    requires c !in a
    ensures IndexOf(a + [c] + b, c) == |a|
  {
    var s := a + [c] + b;
    assert s[|a|] == c;
  }

  lemma {:induction false} SplitQuotedRoundTrip(image: string, tail: string)
    requires '"' !in image
    ensures SplitQuoted("\"" + image + "\" " + tail) == Some((image, tail))
  {
    var v := "\"" + image + "\" " + tail;
    assert v[1..] == image + ['"'] + (" " + tail);
    IndexOfAfter(image, '"', " " + tail);
    assert v[|image| + 2] == ' ';
    assert v[1..|image| + 1] == image;
    assert v[|image| + 3..] == tail;
  }

  lemma {:induction false} SplitTokenRoundTrip(token: string, rest: string)
    requires ' ' !in token
    ensures SplitToken(token + " " + rest) == Some((token, rest))
  {
    var t := token + " " + rest;
    IndexOfAfter(token, ' ', rest);
    assert t[..|token|] == token;
    assert t[|token| + 1..] == rest;
  }

  /** A value written by `Register` reads back as the image, the special argument
      and the extra arguments, provided the image holds no quote and the argument no
      space, which the constructor ensures for the argument. */
  lemma RunValueRoundTrip(image: string, startupArgument: string, arguments: Option<string>)
    requires '"' !in image && ' ' !in startupArgument
    ensures ParseRunValue(RunValue(image, startupArgument, arguments))
            == Some(Command(image, startupArgument, OrEmpty(arguments)))
  {
    var tail := startupArgument + " " + OrEmpty(arguments);
    assert RunValue(image, startupArgument, arguments) == "\"" + image + "\" " + tail;
    SplitQuotedRoundTrip(image, tail);
    SplitTokenRoundTrip(startupArgument, OrEmpty(arguments));
  }
}
