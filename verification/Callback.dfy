/** The callback codec of apps/assistant/src/approval/telegram-callback.parser.ts. */
module Callback {
  import opened Common

  const PREFIX := "apr:v1:"
  const MAX_LEN := 64

  datatype Decision = Approve | Reject

  datatype ParseError = TooLong | BadPrefix | BadDecision | BadUuid

  datatype Parsed = Parsed(uuid: string, decision: Decision)

  predicate IsHex(c: char) {
    '0' <= c <= '9' || 'a' <= c <= 'f' || 'A' <= c <= 'F'
  }

  predicate IsDash(i: nat) {
    i == 8 || i == 13 || i == 18 || i == 23
  }

  /** `UUID_RE`: the layout of section 4 of RFC 9562, versions 1 to 8, in either case. */
  predicate IsUuid(s: string) {
    && |s| == 36
    && (forall i :: 0 <= i < 36 ==> if IsDash(i) then s[i] == '-' else IsHex(s[i]))
    && '1' <= s[14] <= '8'
    && s[19] in {'8', '9', 'a', 'b', 'A', 'B'}
  }

  function Tag(d: Decision): char {
    match d
    case Approve => 'a'
    case Reject => 'r'
  }

  function Encode(uuid: string, decision: Decision): Result<string, ParseError> {
    if !IsUuid(uuid) then Err(BadUuid)
    else
      var out := PREFIX + [Tag(decision)] + ":" + uuid;
      if |out| > MAX_LEN then Err(TooLong) else Ok(out)
  }

  function Parse(data: string): Result<Parsed, ParseError> {
    if |data| > MAX_LEN then Err(TooLong)
    else if !(PREFIX <= data) then Err(BadPrefix)
    else
      var rest := data[|PREFIX|..];
      if !(|rest| >= 2 && rest[0] != ':' && rest[1] == ':') then Err(BadDecision)
      else if rest[0] != 'a' && rest[0] != 'r' then Err(BadDecision)
      else if !IsUuid(rest[2..]) then Err(BadUuid)
      else Ok(Parsed(rest[2..], if rest[0] == 'a' then Approve else Reject))
  }

  /** What a button carries is read back as it was written, and always fits: 45 characters. */
  lemma EncodedIsParsed(uuid: string, decision: Decision)
    requires IsUuid(uuid)
    ensures Encode(uuid, decision).Ok? && |Encode(uuid, decision).value| == 45
    ensures Parse(Encode(uuid, decision).value) == Ok(Parsed(uuid, decision))
    ensures Encode(uuid, decision).value == (if decision == Approve then "apr:v1:a:" else "apr:v1:r:") + uuid
  {
    var out := PREFIX + [Tag(decision)] + ":" + uuid;
    assert out[|PREFIX|..] == [Tag(decision)] + ":" + uuid;
    assert out[|PREFIX|..][2..] == uuid;
  }

  /** Nothing else is accepted: whatever parses is exactly what encoding it would have written. */
  lemma ParsedWasEncoded(data: string)
    requires Parse(data).Ok?
    ensures Encode(Parse(data).value.uuid, Parse(data).value.decision) == Ok(data)
    ensures "apr:v1:" <= data
  {
    var rest := data[|PREFIX|..];
    var p := Parse(data).value;
    assert data == PREFIX + rest;
    assert rest == [rest[0]] + ":" + rest[2..];
    assert data == PREFIX + [Tag(p.decision)] + ":" + p.uuid;
  }

  /** Why anything else is refused, each reason exactly when it is the first to apply. */
  lemma RefusedBecause(data: string)
    ensures Parse(data) == Err(TooLong) <==> |data| > 64
    ensures Parse(data) == Err(BadPrefix) <==> |data| <= 64 && !("apr:v1:" <= data)
    ensures Parse(data) == Err(BadDecision) <==>
            |data| <= 64 && "apr:v1:" <= data && !("apr:v1:a:" <= data) && !("apr:v1:r:" <= data)
    ensures Parse(data) == Err(BadUuid) <==>
            |data| <= 64 && ("apr:v1:a:" <= data || "apr:v1:r:" <= data) && !IsUuid(data[9..])
  {
    if |data| <= 64 && PREFIX <= data {
      var rest := data[|PREFIX|..];
      assert data == PREFIX + rest;
      if "apr:v1:a:" <= data { assert data[7] == 'a' && data[8] == ':'; }
      if "apr:v1:r:" <= data { assert data[7] == 'r' && data[8] == ':'; }
      if |rest| >= 2 && rest[1] == ':' {
        assert rest[0] == 'a' ==> "apr:v1:a:" <= data;
        assert rest[0] == 'r' ==> "apr:v1:r:" <= data;
        assert rest[2..] == data[9..];
      }
    }
  }

  /** The layout of an id, position by position, in either case. */
  lemma UuidLayout(s: string)
    ensures IsUuid(s) <==>
      && |s| == 36 && s[8] == '-' && s[13] == '-' && s[18] == '-' && s[23] == '-'
      && s[14] in "12345678" && s[19] in "89abAB"
      && forall i :: 0 <= i < 36 && i !in {8, 13, 18, 23} ==> s[i] in "0123456789abcdefABCDEF"
  {
    assert forall c :: IsHex(c) <==> c in "0123456789abcdefABCDEF";
    assert forall c :: '1' <= c <= '8' <==> c in "12345678";
  }
}
