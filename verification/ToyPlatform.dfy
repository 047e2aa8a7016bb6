/** A platform that obeys every law the proofs assume: the laws can hold together. */
module ToyPlatform {
  import opened Wrappers
  import opened Platform

  // ---------------------------------------------------------------------------------
  // Encryption: the key is written in front of the text
  // ---------------------------------------------------------------------------------

  function Header(key: Bytes): string {
    seq(|key|, i requires 0 <= i < |key| => (key[i] as int) as char) + [256 as char]
  }

  function Letters(text: string): Bytes {
    seq(|text|, i requires 0 <= i < |text| => ((text[i] as int) % 256) as byte)
  }

  lemma HeaderNoShorter(key: Bytes, other: Bytes, payload: string)
    requires Header(key) <= payload && Header(other) <= payload
    ensures |other| <= |key|
  {
    assert forall i :: 0 <= i < |other| ==> payload[i] == Header(other)[i] && payload[i] != 256 as char;
    assert payload[|key|] == Header(key)[|key|] == 256 as char;
  }

  lemma HeaderDetermines(key: Bytes, other: Bytes, payload: string)
    requires Header(key) <= payload && Header(other) <= payload
    ensures key == other
  {
    HeaderNoShorter(key, other, payload);
    HeaderNoShorter(other, key, payload);
    forall i | 0 <= i < |key|
      ensures key[i] == other[i]
    {
      assert Header(key)[i] == payload[i] && Header(other)[i] == payload[i];
    }
  }

  // ---------------------------------------------------------------------------------
  // The codec of backups: every character is marked, every text is closed
  // ---------------------------------------------------------------------------------

  function Written(text: string): string {
    if text == "" then "." else "," + [text[0]] + Written(text[1..])
  }

  /** One text from the front of the input, and what follows it. */
  function ReadText(input: string): (r: Option<(string, string)>)
    ensures r.Some? ==> |r.value.1| < |input|
  {
    if input == "" then None
    else if input[0] == '.' then Some(("", input[1..]))
    else if input[0] != ',' || |input| < 2 then None
    else
      var rest := ReadText(input[2..]);
      if rest.None? then None else Some(([input[1]] + rest.value.0, rest.value.1))
  }

  lemma {:induction false} TextRoundTrips(text: string, after: string)
    ensures ReadText(Written(text) + after) == Some((text, after))
  {
    var input := Written(text) + after;
    if text == "" {
      assert input[1..] == after;
    } else {
      assert input[2..] == Written(text[1..]) + after;
      TextRoundTrips(text[1..], after);
      assert text == [text[0]] + text[1..];
    }
  }

  function WrittenAll(texts: seq<string>): string {
    if texts == [] then "" else Written(texts[0]) + WrittenAll(texts[1..])
  }

  function ReadAll(input: string): Option<seq<string>>
    decreases |input|
  {
    if input == "" then Some([]) else
    var first := ReadText(input);
    if first.None? then None else
    var rest := ReadAll(first.value.1);
    if rest.None? then None else Some([first.value.0] + rest.value)
  }

  lemma {:induction false} TextsRoundTrip(texts: seq<string>)
    ensures ReadAll(WrittenAll(texts)) == Some(texts)
  {
    if texts != [] {
      TextRoundTrips(texts[0], WrittenAll(texts[1..]));
      TextsRoundTrip(texts[1..]);
      assert Written(texts[0]) != "";
      assert texts == [texts[0]] + texts[1..];
    }
  }

  function Fields(e: Entry): seq<string> {
    [e.serviceName, e.urlOrAppName, e.category, e.loginId, e.password, if e.memo.Some? then "+" + e.memo.value else ""]
  }

  function AllFields(entries: seq<Entry>): seq<string> {
    if entries == [] then [] else Fields(entries[0]) + AllFields(entries[1..])
  }

  function Grouped(texts: seq<string>): Option<seq<Entry>>
    decreases |texts|
  {
    if texts == [] then Some([])
    else if |texts| < 6 then None
    else
      var memo := if texts[5] == "" then None else Some(texts[5][1..]);
      var rest := Grouped(texts[6..]);
      if rest.None? then None
      else Some([Entry(texts[0], texts[1], texts[2], texts[3], texts[4], memo)] + rest.value)
  }

  lemma {:induction false} FieldsRoundTrip(entries: seq<Entry>)
    ensures Grouped(AllFields(entries)) == Some(entries)
  {
    if entries != [] {
      var e := entries[0];
      FieldsRoundTrip(entries[1..]);
      assert AllFields(entries)[6..] == AllFields(entries[1..]);
      assert e.memo.Some? ==> ("+" + e.memo.value)[1..] == e.memo.value;
      assert entries == [e] + entries[1..];
    }
  }

  // ---------------------------------------------------------------------------------
  // The platform
  // ---------------------------------------------------------------------------------

  const TOY := Platform(
    (key: Bytes, draw: nat, text: string) => Header(key) + text,
    (key: Bytes, payload: string) => if Header(key) <= payload then Some(payload[|Header(key)|..]) else None,
    (password: string, salt: string) => Letters(password),
    (password: string, draw: nat) => password,
    (attempt: string, stored: string) => attempt == stored,
    (entries: seq<Entry>) => WrittenAll(AllFields(entries)),
    (json: string) =>
      var texts := ReadAll(json);
      if texts.None? then None else Grouped(texts.value))

  lemma LawsHoldTogether()
    ensures Lawful(TOY) && WrongKeyFails(TOY) && JsonRoundTrips(TOY)
  {
    forall key, other, payload | key != other && TOY.open(key, payload).Some?
      ensures TOY.open(other, payload) == None
    {
      if Header(other) <= payload {
        HeaderDetermines(key, other, payload);
      }
    }
    forall entries
      ensures TOY.parse(TOY.stringify(entries)) == Some(entries)
    {
      TextsRoundTrip(AllFields(entries));
      FieldsRoundTrip(entries);
    }
  }
}
