/**
 * Level 2 messages (core/src/qkd.rs): sealing with a key from the bank, the
 * armor block it travels in, and opening it again.
 */
module Qkd {
  import opened Common
  import opened Strings
  import opened KeyBank
  import Base64
  import Decimal

  const BEGIN := "-----BEGIN CRYPTMAIL QKD MESSAGE-----"
  const END := "-----END CRYPTMAIL QKD MESSAGE-----"
  /** The derivation of older mail, from the bank key by itself. */
  const CIPHER_UNBOUND := "AES-256-GCM, key from " + "HKDF-SHA256 over a QKD key"
  /** The derivation new mail is sealed under, which takes the sender in. */
  const CIPHER_BOUND := CIPHER_UNBOUND + " and the sender"

  datatype QkdError = Level3Removed | NoSuchLevel | Damaged | Tampered | Km(error: KmError)

  // -------------------------------------------------------------- the block --

  datatype Parsed = Parsed(level: nat, cipher: string, sae: Sae, ids: seq<KeyId>, payload: Bytes)

  /** The fields read so far, the payload still as text. */
  datatype Fields = Fields(level: nat, cipher: string, sae: Sae, ids: seq<KeyId>, body: string)

  const NO_FIELDS := Fields(0, "", "", [], "")

  /** Rust's `parse::<u8>`: an optional plus sign, then digits worth at most 255. */
  function ParseU8(s: string): (n: Option<nat>) {
    var digits := if |s| > 1 && s[0] == '+' then s[1..] else s;
    if digits == "" || !Decimal.AllDigits(digits) || Decimal.ToNat(digits) > 255 then None
    else Some(Decimal.ToNat(digits))
  }

  /** What one trimmed line adds. `None` is a level that is no number. */
  function ReadLine(f: Fields, line: string): (r: Option<Fields>) {
    if StartsWith(line, "Level:") then
      match ParseU8(Trim(line[6..])) case None => None case Some(n) => Some(f.(level := n))
    else if StartsWith(line, "Cipher:") then Some(f.(cipher := Trim(line[7..])))
    else if StartsWith(line, "SAE:") then Some(f.(sae := Trim(line[4..])))
    else if StartsWith(line, "Key-ID:") then Some(f.(ids := f.ids + [Trim(line[7..])]))
    else if ':' !in line then Some(f.(body := f.body + line))
    else Some(f)
  }

  function ReadLines(f: Fields, lines: seq<string>): (r: Option<Fields>)
    decreases |lines|
  {
    if lines == [] then Some(f)
    else match ReadLine(f, Trim(lines[0])) case None => None case Some(g) => ReadLines(g, lines[1..])
  }

  /** The text between the first BEGIN and the first END after it. */
  function Inside(armored: string): (r: Option<string>) {
    Between(armored, BEGIN, END)
  }

  function Finish(f: Fields): (r: Option<Parsed>) {
    match Base64.DecodeStrict(f.body)
    case None => None
    case Some(payload) => Some(Parsed(f.level, f.cipher, f.sae, f.ids, payload))
  }

  function Parse(armored: string): (r: Option<Parsed>) {
    match Inside(armored)
    case None => None
    case Some(text) =>
      match ReadLines(NO_FIELDS, Lines(text))
      case None => None
      case Some(f) => Finish(f)
  }

  method ParseArmored(armored: string) returns (r: Option<Parsed>)
    ensures r == Parse(armored)
  {
    var inside := Inside(armored);
    if inside.None? {
      return None;
    }
    var lines := Lines(inside.value);
    var level, cipher, sae, ids, body := 0, "", "", [], "";
    for i := 0 to |lines|
      invariant ReadLines(NO_FIELDS, lines) == ReadLines(Fields(level, cipher, sae, ids, body), lines[i..])
    {
      var line := Trim(lines[i]);
      assert lines[i..][0] == lines[i] && lines[i..][1..] == lines[i + 1..];
      if StartsWith(line, "Level:") {
        var n := ParseU8(Trim(line[6..]));
        if n.None? {
          return None;
        }
        level := n.value;
      } else if StartsWith(line, "Cipher:") {
        cipher := Trim(line[7..]);
      } else if StartsWith(line, "SAE:") {
        sae := Trim(line[4..]);
      } else if StartsWith(line, "Key-ID:") {
        ids := ids + [Trim(line[7..])];
      } else if ':' !in line {
        body := body + line;
      }
    }
    var payload := Base64.DecodeStrict(body);
    r := if payload.None? then None else Some(Parsed(level, cipher, sae, ids, payload.value));
  }

  // --------------------------------------------------------------- writing --

  function IdLines(ids: seq<KeyId>): (lines: seq<string>)
    ensures |lines| == |ids|
    ensures forall i | 0 <= i < |ids| :: lines[i] == "Key-ID: " + ids[i]
  {
    seq(|ids|, i requires 0 <= i < |ids| => "Key-ID: " + ids[i])
  }

  function HeaderLines(level: nat, cipher: string, sae: Sae, ids: seq<KeyId>): (lines: seq<string>) {
    ["Level: " + Decimal.ToString(level), "Cipher: " + cipher, "SAE: " + sae] + IdLines(ids)
  }

  /** The authenticated header. */
  function Header(level: nat, cipher: string, sae: Sae, ids: seq<KeyId>): (s: string) {
    Unlines(HeaderLines(level, cipher, sae, ids))
  }

  lemma ThreeLines(a: string, b: string, c: string)
    ensures Unlines([a, b, c]) == a + "\n" + b + "\n" + c + "\n"
  {
    assert [a, b, c][1..] == [b, c] && [b, c][1..] == [c] && [c][1..] == [];
    assert Unlines([c]) == c + "\n";
    assert Unlines([b, c]) == b + "\n" + (c + "\n");
  }

  method WriteHeader(level: nat, cipher: string, sae: Sae, ids: seq<KeyId>) returns (out: string)
    ensures out == Header(level, cipher, sae, ids)
  {
    var (a, b, c) := ("Level: " + Decimal.ToString(level), "Cipher: " + cipher, "SAE: " + sae);
    out := a + "\n" + b + "\n" + c + "\n";
    ThreeLines(a, b, c);
    UnlinesAppend([a, b, c], IdLines(ids));
    assert IdLines(ids)[0..] == IdLines(ids);
    for i := 0 to |ids|
      invariant Header(level, cipher, sae, ids) == out + Unlines(IdLines(ids)[i..])
    {
      var line := "Key-ID: " + ids[i] + "\n";
      assert IdLines(ids)[i..][0] + "\n" == line && IdLines(ids)[i..][1..] == IdLines(ids)[i + 1..];
      out := out + line;
    }
    assert IdLines(ids)[|ids|..] == [];
  }

  /** `s` in pieces of 64, the last one shorter. */
  function Chunks(s: string): (r: seq<string>)
    decreases |s|
  {
    if s == "" then [] else if |s| <= 64 then [s] else [s[..64]] + Chunks(s[64..])
  }

  function Armor(header: string, payload: Bytes): (s: string) {
    BEGIN + "\n" + header + "\n" + Unlines(Chunks(Base64.Encode(payload))) + END + "\n"
  }

  method WriteArmor(header: string, payload: Bytes) returns (out: string)
    ensures out == Armor(header, payload)
  {
    var start := BEGIN + "\n" + header + "\n";
    var body := WriteChunks(Base64.Encode(payload));
    out := start + body + END + "\n";
  }

  function ChunksFrom(text: string, at: nat): (s: string) {
    if at < |text| then Unlines(Chunks(text[at..])) else ""
  }

  method WriteChunks(text: string) returns (out: string)
    ensures out == Unlines(Chunks(text))
  {
    out := "";
    var at := 0;
    assert text[0..] == text;
    while at < |text|
      invariant Unlines(Chunks(text)) == out + ChunksFrom(text, at)
    {
      var line := text[at..if at + 64 <= |text| then at + 64 else |text|];
      ChunkStep(text, at, line);
      out := out + (line + "\n");
      at := at + 64;
    }
  }

  lemma ChunkStep(text: string, at: nat, line: string)
    requires at < |text| && line == text[at..if at + 64 <= |text| then at + 64 else |text|]
    ensures ChunksFrom(text, at) == (line + "\n") + ChunksFrom(text, at + 64)
  {
    var rest := text[at..];
    if |rest| > 64 {
      assert rest[..64] == line && rest[64..] == text[at + 64..];
      assert Chunks(rest)[1..] == Chunks(rest[64..]);
    } else {
      assert rest == line;
      assert Chunks(rest)[1..] == [] && Unlines([]) == "";
    }
  }

  // ------------------------------------------------------------ round trip --

  /** A value one header line carries: a single line, nothing to trim. */
  ghost predicate HeaderValue(s: string) {
    OneLine(s) && Trimmed(s) && !Contains(s, END)
  }

  /** END needs two dashes in a row to begin in `prefix`; otherwise it is all in `v`. */
  lemma NoEndFromPrefix(prefix: string, v: string)
    requires !Contains(v, END)
    requires forall i | 0 <= i < |prefix| :: prefix[i] != '-' || (i + 1 < |prefix| && prefix[i + 1] != '-')
    ensures !Contains(prefix + v, END)
  {
    var line := prefix + v;
    forall i: nat ensures !OccursAt(line, END, i) {
      OccursMeans(line, END, i);
      assert END[0] == '-' && END[1] == '-';
      if i >= |prefix| {
        OccursMeans(v, END, i - |prefix|);
      }
    }
  }

  lemma NoEndWithoutDash(s: string)
    requires '-' !in s
    ensures !Contains(s, END)
  {
    forall i: nat ensures !OccursAt(s, END, i) {
      OccursMeans(s, END, i);
      assert END[0] == '-';
    }
  }

  /** A header's name with its colon, as it can begin a line. */
  ghost predicate IsPrefix(prefix: string) {
    && OneLine(prefix) && prefix != "" && !IsSpace(prefix[0]) && !IsSpace(prefix[|prefix| - 1])
    && forall i | 0 <= i < |prefix| :: prefix[i] != '-' || (i + 1 < |prefix| && prefix[i + 1] != '-')
  }

  lemma Prefixes()
    ensures IsPrefix("Level:") && IsPrefix("Cipher:") && IsPrefix("SAE:") && IsPrefix("Key-ID:")
  {
  }

  /** A trimmed line is read by the name it begins with. */
  lemma ReadByName(f: Fields, t: string, v: string)
    ensures StartsWith(t, "Cipher:") && t[0] == 'C' && Trim(t[7..]) == v ==> ReadLine(f, t) == Some(f.(cipher := v))
    ensures StartsWith(t, "SAE:") && t[0] == 'S' && Trim(t[4..]) == v ==> ReadLine(f, t) == Some(f.(sae := v))
    ensures StartsWith(t, "Key-ID:") && t[0] == 'K' && Trim(t[7..]) == v ==> ReadLine(f, t) == Some(f.(ids := f.ids + [v]))
  {
    FirstLetter(t, "Level:");
    FirstLetter(t, "Cipher:");
    FirstLetter(t, "SAE:");
  }

  lemma FirstLetter(t: string, prefix: string)
    requires prefix != ""
    ensures StartsWith(t, prefix) ==> t[0] == prefix[0]
  {
    if StartsWith(t, prefix) {
      assert t[..|prefix|][0] == t[0];
    }
  }

  /** A header line gives its value back; `prefix` is its name with the colon. */
  lemma PrefixedLine(line: string, prefix: string, v: string)
    requires line == prefix + (" " + v) && HeaderValue(v) && IsPrefix(prefix)
    ensures StartsWith(Trim(line), prefix) && Trim(Trim(line)[|prefix|..]) == v && Trim(line)[0] == prefix[0]
    ensures PlainLine(line) && !Contains(line, END)
  {
    TrimKeeps(v);
    NoEndFromPrefix(" ", v);
    NoEndFromPrefix(prefix, " " + v);
    if v == "" {
      assert TrimStart(line) == line && line[..|line| - 1] == prefix;
      assert TrimEnd(line) == TrimEnd(prefix) == prefix;
      assert prefix[|prefix|..] == "" == Trim("");
    } else {
      assert line[|line| - 1] == v[|v| - 1];
      assert Trim(line) == line && line[|prefix|..] == " " + v;
    }
  }

  lemma ReadCipher(f: Fields, v: string)
    requires HeaderValue(v)
    ensures ReadLine(f, Trim("Cipher: " + v)) == Some(f.(cipher := v))
    ensures PlainLine("Cipher: " + v) && !Contains("Cipher: " + v, END)
  {
    assert "Cipher: " + v == "Cipher:" + (" " + v);
    Prefixes();
    PrefixedLine("Cipher: " + v, "Cipher:", v);
    ReadByName(f, Trim("Cipher: " + v), v);
  }

  lemma ReadSae(f: Fields, v: string)
    requires HeaderValue(v)
    ensures ReadLine(f, Trim("SAE: " + v)) == Some(f.(sae := v))
    ensures PlainLine("SAE: " + v) && !Contains("SAE: " + v, END)
  {
    assert "SAE: " + v == "SAE:" + (" " + v);
    Prefixes();
    PrefixedLine("SAE: " + v, "SAE:", v);
    ReadByName(f, Trim("SAE: " + v), v);
  }

  lemma ReadKeyId(f: Fields, v: string)
    requires HeaderValue(v)
    ensures ReadLine(f, Trim("Key-ID: " + v)) == Some(f.(ids := f.ids + [v]))
    ensures PlainLine("Key-ID: " + v) && !Contains("Key-ID: " + v, END)
  {
    assert "Key-ID: " + v == "Key-ID:" + (" " + v);
    Prefixes();
    PrefixedLine("Key-ID: " + v, "Key-ID:", v);
    ReadByName(f, Trim("Key-ID: " + v), v);
  }

  lemma ReadLevel(f: Fields, level: nat)
    requires level <= 255
    ensures ReadLine(f, Trim("Level: " + Decimal.ToString(level))) == Some(f.(level := level))
    ensures PlainLine("Level: " + Decimal.ToString(level)) && !Contains("Level: " + Decimal.ToString(level), END)
  {
    var v := Decimal.ToString(level);
    LevelIsValue(level);
    assert "Level: " + v == "Level:" + (" " + v);
    Prefixes();
    PrefixedLine("Level: " + v, "Level:", v);
    ReadLevelLine(f, Trim("Level: " + v), level);
  }

  lemma LevelIsValue(level: nat)
    requires level <= 255
    ensures HeaderValue(Decimal.ToString(level)) && ParseU8(Decimal.ToString(level)) == Some(level)
  {
    Decimal.RoundTrip(level);
    NoEndWithoutDash(Decimal.ToString(level));
  }

  lemma ReadLevelLine(f: Fields, t: string, level: nat)
    requires StartsWith(t, "Level:") && ParseU8(Trim(t[6..])) == Some(level)
    ensures ReadLine(f, t) == Some(f.(level := level))
  {
  }

  lemma ReadOne(f: Fields, line: string, g: Fields, rest: seq<string>)
    requires ReadLine(f, Trim(line)) == Some(g)
    ensures ReadLines(f, [line] + rest) == ReadLines(g, rest)
  {
    assert ([line] + rest)[1..] == rest;
  }

  lemma {:induction false} ReadIdLines(f: Fields, ids: seq<KeyId>, rest: seq<string>)
    requires forall i | 0 <= i < |ids| :: HeaderValue(ids[i])
    ensures ReadLines(f, IdLines(ids) + rest) == ReadLines(f.(ids := f.ids + ids), rest)
    decreases |ids|
  {
    var lines := IdLines(ids) + rest;
    if ids == [] {
      assert lines == rest && f.ids + ids == f.ids;
    } else {
      var g := f.(ids := f.ids + [ids[0]]);
      ReadKeyId(f, ids[0]);
      FirstId(ids, rest);
      ReadOne(f, "Key-ID: " + ids[0], g, IdLines(ids[1..]) + rest);
      ReadIdLines(g, ids[1..], rest);
      OneMoreId(f.ids, ids);
    }
  }

  lemma FirstId(ids: seq<KeyId>, rest: seq<string>)
    requires ids != []
    ensures IdLines(ids) + rest == ["Key-ID: " + ids[0]] + (IdLines(ids[1..]) + rest)
  {
  }

  lemma OneMoreId(done: seq<KeyId>, ids: seq<KeyId>)
    requires ids != []
    ensures done + [ids[0]] + ids[1..] == done + ids
  {
  }

  ghost predicate BodyText(s: string) {
    forall i | 0 <= i < |s| :: Base64.IsDigit(s[i]) || s[i] == '='
  }

  lemma PlainBody(line: string)
    requires BodyText(line)
    ensures ':' !in line && '-' !in line && Trimmed(line) && PlainLine(line)
  {
  }

  lemma BodyLine(f: Fields, line: string)
    requires BodyText(line)
    ensures ReadLine(f, Trim(line)) == Some(f.(body := f.body + line))
    ensures PlainLine(line) && !Contains(line, END)
  {
    PlainBody(line);
    TrimKeeps(line);
    NoEndWithoutDash(line);
    NoColonNoHeader(f, line);
  }

  lemma NoColonNoHeader(f: Fields, line: string)
    requires ':' !in line
    ensures ReadLine(f, line) == Some(f.(body := f.body + line))
  {
    OccursMeans(line, "Level:", 0);
    OccursMeans(line, "Cipher:", 0);
    OccursMeans(line, "SAE:", 0);
    OccursMeans(line, "Key-ID:", 0);
    assert "Level:"[5] == "Cipher:"[6] == "SAE:"[3] == "Key-ID:"[6] == ':';
  }

  lemma {:induction false} ReadBody(f: Fields, text: string)
    requires BodyText(text)
    ensures ReadLines(f, Chunks(text)) == Some(f.(body := f.body + text))
    decreases |text|
  {
    if text == "" {
      assert f.body + text == f.body;
    } else {
      var line := if |text| <= 64 then text else text[..64];
      var rest := text[|line|..];
      var g := f.(body := f.body + line);
      BodyLine(f, line);
      ReadBody(g, rest);
      ChunksCons(text, line, rest);
      ReadOne(f, line, g, Chunks(rest));
      AddText(f.body, line, rest);
    }
  }

  lemma AddText(body: string, line: string, rest: string)
    ensures body + (line + rest) == body + line + rest
  {
  }

  lemma ChunksCons(text: string, line: string, rest: string)
    requires text != "" && line == (if |text| <= 64 then text else text[..64]) && rest == text[|line|..]
    ensures Chunks(text) == [line] + Chunks(rest) && text == line + rest
  {
  }

  lemma {:induction false} ChunksArePlain(text: string)
    requires BodyText(text)
    ensures forall k | 0 <= k < |Chunks(text)| :: PlainLine(Chunks(text)[k]) && !Contains(Chunks(text)[k], END)
    decreases |text|
  {
    if text != "" {
      var line := if |text| <= 64 then text else text[..64];
      var rest := text[|line|..];
      BodyLine(NO_FIELDS, line);
      ChunksArePlain(rest);
      ChunksCons(text, line, rest);
    }
  }

  lemma EncodedIsBodyText(payload: Bytes)
    ensures BodyText(Base64.Encode(payload))
  {
    var u := Base64.Sextets(payload);
    assert forall i | 0 <= i < |u| :: Base64.Chars(u)[i] == Base64.Digit(u[i]);
  }

  /** Every line between BEGIN and END of a block, an empty one before and after the header. */
  function BlockLines(level: nat, cipher: string, sae: Sae, ids: seq<KeyId>, payload: Bytes): (lines: seq<string>) {
    [""] + HeaderLines(level, cipher, sae, ids) + [""] + Chunks(Base64.Encode(payload))
  }

  ghost predicate HeaderValues(cipher: string, sae: Sae, ids: seq<KeyId>) {
    HeaderValue(cipher) && HeaderValue(sae) && forall i | 0 <= i < |ids| :: HeaderValue(ids[i])
  }

  ghost predicate Plain(lines: seq<string>) {
    forall k | 0 <= k < |lines| :: PlainLine(lines[k]) && !Contains(lines[k], END)
  }

  lemma PlainAppend(a: seq<string>, b: seq<string>)
    requires Plain(a) && Plain(b)
    ensures Plain(a + b)
  {
    forall k | 0 <= k < |a + b| ensures PlainLine((a + b)[k]) && !Contains((a + b)[k], END) {
      assert (a + b)[k] == if k < |a| then a[k] else b[k - |a|];
    }
  }

  lemma HeaderIsPlain(level: nat, cipher: string, sae: Sae, ids: seq<KeyId>)
    requires level <= 255 && HeaderValues(cipher, sae, ids)
    ensures Plain(HeaderLines(level, cipher, sae, ids))
  {
    ReadLevel(NO_FIELDS, level);
    ReadCipher(NO_FIELDS, cipher);
    ReadSae(NO_FIELDS, sae);
    forall k | 0 <= k < |ids| ensures PlainLine(IdLines(ids)[k]) && !Contains(IdLines(ids)[k], END) {
      ReadKeyId(NO_FIELDS, ids[k]);
    }
    PlainAppend(["Level: " + Decimal.ToString(level), "Cipher: " + cipher, "SAE: " + sae], IdLines(ids));
  }

  lemma BlockIsPlain(level: nat, cipher: string, sae: Sae, ids: seq<KeyId>, payload: Bytes)
    requires level <= 255 && HeaderValues(cipher, sae, ids)
    ensures Plain(BlockLines(level, cipher, sae, ids, payload))
  {
    var header := HeaderLines(level, cipher, sae, ids);
    var chunks := Chunks(Base64.Encode(payload));
    HeaderIsPlain(level, cipher, sae, ids);
    EncodedIsBodyText(payload);
    ChunksArePlain(Base64.Encode(payload));
    NoEndWithoutDash("");
    PlainAppend([""], header);
    PlainAppend([""] + header, [""]);
    PlainAppend([""] + header + [""], chunks);
  }

  lemma ReadBlock(level: nat, cipher: string, sae: Sae, ids: seq<KeyId>, payload: Bytes)
    requires level <= 255 && HeaderValues(cipher, sae, ids)
    ensures ReadLines(NO_FIELDS, BlockLines(level, cipher, sae, ids, payload))
      == Some(Fields(level, cipher, sae, ids, Base64.Encode(payload)))
  {
    var text := Base64.Encode(payload);
    var (l, c, s) := ("Level: " + Decimal.ToString(level), "Cipher: " + cipher, "SAE: " + sae);
    var f1 := NO_FIELDS.(level := level);
    var f2 := f1.(cipher := cipher);
    var f3 := f2.(sae := sae);
    var f4 := f3.(ids := ids);
    var r5 := [""] + Chunks(text);
    var r4 := IdLines(ids) + r5;
    EncodedIsBodyText(payload);
    BodyLine(NO_FIELDS, "");
    assert NO_FIELDS.(body := "" + "") == NO_FIELDS;
    ReadLevel(NO_FIELDS, level);
    ReadCipher(f1, cipher);
    ReadSae(f2, sae);
    ReadOne(NO_FIELDS, "", NO_FIELDS, [l] + ([c] + ([s] + r4)));
    ReadOne(NO_FIELDS, l, f1, [c] + ([s] + r4));
    ReadOne(f1, c, f2, [s] + r4);
    ReadOne(f2, s, f3, r4);
    ReadIdLines(f3, ids, r5);
    assert f3.ids + ids == ids;
    BodyLine(f4, "");
    assert f4.(body := f4.body + "") == f4;
    ReadOne(f4, "", f4, Chunks(text));
    ReadBody(f4, text);
    assert f4.(body := f4.body + text) == Fields(level, cipher, sae, ids, text);
    BlockLinesNested(level, cipher, sae, ids, payload);
  }

  lemma BlockLinesNested(level: nat, cipher: string, sae: Sae, ids: seq<KeyId>, payload: Bytes)
    ensures BlockLines(level, cipher, sae, ids, payload)
      == [""] + (["Level: " + Decimal.ToString(level)] + (["Cipher: " + cipher] + (["SAE: " + sae]
         + (IdLines(ids) + ([""] + Chunks(Base64.Encode(payload)))))))
  {
  }

  lemma ArmorIsBlock(level: nat, cipher: string, sae: Sae, ids: seq<KeyId>, payload: Bytes)
    ensures Armor(Header(level, cipher, sae, ids), payload)
      == BEGIN + Unlines(BlockLines(level, cipher, sae, ids, payload)) + END + "\n"
  {
    var header := HeaderLines(level, cipher, sae, ids);
    var chunks := Chunks(Base64.Encode(payload));
    UnlinesAppend([""] + header + [""], chunks);
    UnlinesAppend([""] + header, [""]);
    UnlinesAppend([""], header);
    OneEmptyLine();
    BlockRegroup(BEGIN, Unlines(header), Unlines(chunks), END);
  }

  lemma OneEmptyLine()
    ensures Unlines([""]) == "\n"
  {
    assert [""][1..] == [];
  }

  lemma BlockRegroup(begin: string, h: string, c: string, end: string)
    ensures begin + ("\n" + h + "\n" + c) + end + "\n" == begin + "\n" + h + "\n" + c + end + "\n"
  {
  }

  /**
   * A block found in surrounding text gives back exactly what it was written
   * from, so the header rebuilt from it is the authenticated one. The text
   * before must not itself make a BEGIN earlier.
   */
  lemma ParseOfArmor(pre: string, level: nat, cipher: string, sae: Sae, ids: seq<KeyId>, payload: Bytes, post: string)
    requires level <= 255 && HeaderValues(cipher, sae, ids)
    requires Find(pre + BEGIN, BEGIN) == Some(|pre|)
    ensures Parse(pre + Armor(Header(level, cipher, sae, ids), payload) + post)
      == Some(Parsed(level, cipher, sae, ids, payload))
  {
    var lines := BlockLines(level, cipher, sae, ids, payload);
    ArmorIsBlock(level, cipher, sae, ids, payload);
    BlockIsPlain(level, cipher, sae, ids, payload);
    assert OneLine(END);
    BetweenIs(pre, BEGIN, lines, END, post, pre + Armor(Header(level, cipher, sae, ids), payload) + post);
    LinesOfUnlines(lines);
    ReadBlock(level, cipher, sae, ids, payload);
    Base64.StrictRoundTrip(payload);
  }
}
