/** The moment composer: a text field limited to 100 characters, a counter
    of the characters left, and a Create button that hands the trimmed text
    on, but only while a session token exists. */
module CreateMoment {
  import opened Text

  const MaxLength: nat := 100

  class Composer {
    /** The bound text. */
    var text: string

    constructor (text: string)
      ensures this.text == text
    {
      this.text := text;
    }

    /** The editor's `onChange`: a longer text is cut to its first 100 characters. */
    method TextChanged(newValue: string)
      modifies this
      ensures text == Take(newValue, MaxLength)
      ensures |text| <= MaxLength && text == newValue[..|text|]
      ensures |newValue| <= MaxLength ==> text == newValue
    {
      if |newValue| > MaxLength {
        text := newValue[..MaxLength];
      } else {
        text := newValue;
      }
    }

    /** "\(maxLength - text.count) characters left". */
    function CharactersLeft(): (n: int)
      reads this
      ensures |text| <= MaxLength ==> 0 <= n && n + |text| == MaxLength
      ensures |text| > MaxLength ==> n < 0
    {
      MaxLength - |text|
    }

    /** The Create button is disabled while the text is blank. */
    predicate CreateDisabled()
      reads this
    {
      Trim(text, WhitespacesAndNewlines) == []
    }

    /** Pressing Create: with a session token, `onCreate` receives the
        trimmed text; without one nothing is handed on. */
    method Create(token: Option<string>) returns (sent: Option<string>)
      ensures sent.Some? <==> token.Some?
      ensures sent.Some? ==> sent.value == Trim(text, WhitespacesAndNewlines)
      ensures sent.Some? && !CreateDisabled() ==>
                sent.value != [] && |sent.value| <= |text| &&
                !InClass(sent.value[0], WhitespacesAndNewlines) &&
                !InClass(sent.value[|sent.value| - 1], WhitespacesAndNewlines)
    {
      TrimEnds(text, WhitespacesAndNewlines);
      if token.Some? {
        sent := Some(Trim(text, WhitespacesAndNewlines));
      } else {
        sent := None;
      }
    }
  }

  /** The button is disabled exactly for text made of blanks only (the
      empty text included). */
  lemma DisabledIffBlank(c: Composer)
    ensures c.CreateDisabled() <==> forall k :: 0 <= k < |c.text| ==> InClass(c.text[k], WhitespacesAndNewlines)
  {
    TrimEmptyIff(c.text, WhitespacesAndNewlines);
  }

  /** Cutting keeps the first 100 characters: cutting again changes nothing,
      and the counter never goes below zero afterwards. */
  lemma TakeIdempotent(s: string)
    ensures Take(Take(s, MaxLength), MaxLength) == Take(s, MaxLength)
    ensures MaxLength - |Take(s, MaxLength)| >= 0
    ensures |s| > MaxLength ==> Take(s, MaxLength) == s[..MaxLength]
  {
  }
}
