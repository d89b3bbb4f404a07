/** Percent escapes in URL paths: what reading a path decodes, and why a path that holds anything
    to decode or to cut off is never read back as it was written. */
module Escapes {
  import opened Wrappers
  import opened Strings
  import opened Routes
  import Decimal

  predicate IsHex(c: char) {
    '0' <= c <= '9' || 'a' <= c <= 'f' || 'A' <= c <= 'F'
  }

  function HexValue(c: char): (v: nat)
    requires IsHex(c)
    ensures v < 16
  {
    if '0' <= c <= '9' then c as int - '0' as int
    else if 'a' <= c <= 'f' then c as int - 'a' as int + 10
    else c as int - 'A' as int + 10
  }

  /** Every %XX replaced by the character it stands for; nothing when an escape is malformed. */
  function Decode(s: string): Option<string> {
    if s == "" then Some("")
    else if s[0] == '%' then
      if |s| >= 3 && IsHex(s[1]) && IsHex(s[2]) then
        Prefixed((16 * HexValue(s[1]) + HexValue(s[2])) as char, Decode(s[3..]))
      else None
    else Prefixed(s[0], Decode(s[1..]))
  }

  function Prefixed(c: char, rest: Option<string>): Option<string> {
    if rest.None? then None else Some([c] + rest.value)
  }

  /** The path that a parser reads out of a URL with this text after the host. */
  function PathRead(text: string): Option<string> {
    Decode(WithoutQuery(text))
  }

  /** Nothing to decode and nothing to cut off. */
  predicate Plain(s: string) {
    Free(s, '%') && Free(s, '?') && Free(s, '#')
  }

  // ----- a measure that reading lowers and templating does not raise

  predicate Light(c: char) {
    c == '{' || c == 'n' || c == '}'
  }

  /** How many characters are not among those of the wildcard. */
  function Weight(s: string): nat {
    if s == "" then 0 else (if Light(s[0]) then 0 else 1) + Weight(s[1..])
  }

  lemma {:induction false} WeightConcat(a: string, b: string)
    ensures Weight(a + b) == Weight(a) + Weight(b)
  {
    if a == "" {
      assert a + b == b;
    } else {
      assert (a + b)[1..] == a[1..] + b;
      WeightConcat(a[1..], b);
    }
  }

  lemma WeightCons(c: char, s: string)
    ensures Weight([c] + s) == (if Light(c) then 0 else 1) + Weight(s)
  {
    assert ([c] + s)[1..] == s;
  }

  lemma FreeCons(s: string, c: char)
    requires s != ""
    ensures Free(s, c) <==> s[0] != c && Free(s[1..], c)
  {
    if s[0] != c && Free(s[1..], c) {
      forall k | 0 <= k < |s| ensures s[k] != c {
        assert k > 0 ==> s[k] == s[1..][k - 1];
      }
    }
  }

  /** Decoding leaves a text without escapes alone and makes any other lighter. */
  lemma {:induction false} DecodeLightens(s: string)
    ensures Free(s, '%') ==> Decode(s) == Some(s)
    ensures Decode(s).Some? ==> Weight(Decode(s).value) <= Weight(s)
    ensures Decode(s).Some? && !Free(s, '%') ==> Weight(Decode(s).value) < Weight(s)
    decreases |s|
  {
    if s != "" {
      FreeCons(s, '%');
      if s[0] != '%' {
        DecodeLightens(s[1..]);
        assert s == [s[0]] + s[1..];
        if Decode(s[1..]).Some? {
          WeightCons(s[0], Decode(s[1..]).value);
        }
      } else if |s| >= 3 && IsHex(s[1]) && IsHex(s[2]) {
        EscapeLightens(s);
      }
    }
  }

  lemma EscapeWeight(s: string)
    requires |s| >= 3 && s[0] == '%' && IsHex(s[1]) && IsHex(s[2])
    ensures Weight(s) == 3 + Weight(s[3..])
  {
    var one, two := s[1..], s[2..];
    assert one[1..] == two && two[1..] == s[3..];
    assert Weight(s) == 1 + Weight(one) && Weight(one) == 1 + Weight(two) && Weight(two) == 1 + Weight(s[3..]);
  }

  lemma EscapeLightens(s: string)
    requires |s| >= 3 && s[0] == '%' && IsHex(s[1]) && IsHex(s[2])
    ensures Decode(s).Some? ==> Weight(Decode(s).value) < Weight(s)
    decreases |s|, 0
  {
    DecodeLightens(s[3..]);
    EscapeWeight(s);
    if Decode(s[3..]).Some? {
      WeightCons((16 * HexValue(s[1]) + HexValue(s[2])) as char, Decode(s[3..]).value);
    }
  }

  /** So does cutting off a query or a fragment. */
  lemma CutLightens(s: string)
    ensures Free(s, '?') && Free(s, '#') ==> WithoutQuery(s) == s
    ensures Weight(WithoutQuery(s)) <= Weight(s)
    ensures !(Free(s, '?') && Free(s, '#')) ==> Weight(WithoutQuery(s)) < Weight(s)
  {
    var i := QueryStart(s);
    if i >= 0 {
      assert s == s[..i] + ([s[i]] + s[i + 1..]);
      WeightConcat(s[..i], [s[i]] + s[i + 1..]);
      WeightCons(s[i], s[i + 1..]);
    }
  }

  lemma {:induction false} JoinWeight(parts: seq<string>, lighter: seq<string>)
    requires |parts| == |lighter| >= 1 && forall i | 0 <= i < |parts| :: Weight(lighter[i]) <= Weight(parts[i])
    ensures Weight(Join(lighter)) <= Weight(Join(parts))
  {
    if |parts| > 1 {
      JoinWeight(parts[1..], lighter[1..]);
      WeightConcat(parts[0] + "/", Join(parts[1..]));
      WeightConcat(parts[0], "/");
      WeightConcat(lighter[0] + "/", Join(lighter[1..]));
      WeightConcat(lighter[0], "/");
    }
  }

  lemma WildWeight()
    ensures Weight(WILD) == 0
  {
    assert WILD[1..] == "n}" && WILD[1..][1..] == "}" && WILD[1..][1..][1..] == "";
  }

  /** Templating makes nothing heavier. */
  lemma TemplatizeWeight(p: string)
    ensures Weight(TemplatizePath(p)) <= Weight(p)
  {
    if p != "" && p != "/" {
      WildWeight();
      JoinSplit(p);
      JoinWeight(Split(p), Rewrite(Split(p), TemplatizeSegment));
    }
  }

  // ----- which paths are read back

  lemma ReadLightens(text: string)
    ensures Plain(text) ==> PathRead(text) == Some(text)
    ensures PathRead(text).Some? && !Plain(text) ==> Weight(PathRead(text).value) < Weight(text)
  {
    CutLightens(text);
    DecodeLightens(WithoutQuery(text));
  }

  /** A templatized path, read and templatized again, is itself if and only if it is plain. */
  lemma ReadTwiceIff(p: string)
    requires PathRead(TemplatizePath(p)).Some?
    ensures TemplatizePath(PathRead(TemplatizePath(p)).value) == TemplatizePath(p) <==> Plain(TemplatizePath(p))
  {
    var q := TemplatizePath(p);
    ReadLightens(q);
    TemplatizeIdempotent(p);
    TemplatizeWeight(PathRead(q).value);
  }

  lemma {:induction false} JoinFreeBack(parts: seq<string>, c: char, i: nat)
    requires |parts| >= 1 && Free(Join(parts), c) && i < |parts|
    ensures Free(parts[i], c)
  {
    if |parts| > 1 {
      var rest := Join(parts[1..]);
      assert Join(parts) == parts[0] + ("/" + rest);
      FreeParts(parts[0], "/" + rest, c);
      FreeParts("/", rest, c);
      if i > 0 {
        JoinFreeBack(parts[1..], c, i - 1);
      }
    }
  }

  lemma FreeParts(a: string, b: string, c: char)
    ensures Free(a + b, c) <==> Free(a, c) && Free(b, c)
  {
    if Free(a + b, c) {
      forall k | 0 <= k < |a| ensures a[k] != c {
        assert (a + b)[k] == a[k];
      }
      forall k | 0 <= k < |b| ensures b[k] != c {
        assert (a + b)[|a| + k] == b[k];
      }
    }
  }

  lemma TemplatizeFreeIff(p: string, c: char)
    requires c != '/' && c !in WILD && !Decimal.IsDigit(c)
    ensures Free(TemplatizePath(p), c) <==> Free(p, c)
  {
    if Free(p, c) {
      TemplatizeFree(p, c);
    }
    if Free(TemplatizePath(p), c) && p != "" && p != "/" {
      var parts := Split(p);
      forall part | part in parts ensures Free(part, c) {
        var i :| 0 <= i < |parts| && parts[i] == part;
        JoinFreeBack(Rewrite(parts, TemplatizeSegment), c, i);
      }
      JoinSplit(p);
      JoinFree(parts, c);
    }
  }

  /** Templating makes no path plain and keeps every plain one so. */
  lemma TemplatizePlainIff(p: string)
    ensures Plain(TemplatizePath(p)) <==> Plain(p)
  {
    TemplatizeFreeIff(p, '%');
    TemplatizeFreeIff(p, '?');
    TemplatizeFreeIff(p, '#');
  }

  // ----- escaping, which decoding undoes

  const HEX := "0123456789ABCDEF"
  const HEX_LOWER := "0123456789abcdef"

  predicate IsByte(c: char) {
    c as int < 256
  }

  /** The escape of one byte, in capital or small digits. */
  function Escape(c: char, hex: string): string
    requires IsByte(c) && |hex| == 16
  {
    ['%', hex[c as int / 16], hex[c as int % 16]]
  }

  function EscapeAll(s: string, hex: string): string
    requires |hex| == 16 && forall c | c in s :: IsByte(c)
  {
    if s == "" then "" else Escape(s[0], hex) + EscapeAll(s[1..], hex)
  }

  lemma HexDigits(v: nat)
    requires v < 16
    ensures IsHex(HEX[v]) && HexValue(HEX[v]) == v && IsHex(HEX_LOWER[v]) && HexValue(HEX_LOWER[v]) == v
  {
  }

  /** Decoding undoes the escaping of every byte, in either spelling. */
  lemma {:induction false} DecodeEscapeAll(s: string, hex: string)
    requires (hex == HEX || hex == HEX_LOWER) && forall c | c in s :: IsByte(c)
    ensures Decode(EscapeAll(s, hex)) == Some(s)
  {
    if s != "" {
      DecodeEscapeAll(s[1..], hex);
      assert forall c | c in s[1..] :: c in s;
      DecodeOne(s[0], EscapeAll(s[1..], hex), hex);
      assert s == [s[0]] + s[1..];
    }
  }

  /** A percent sign without two hexadecimal digits after it makes a text unreadable. */
  lemma {:induction false} Malformed(x: string, y: string)
    requires Free(x, '%') && (|y| < 2 || !IsHex(y[0]) || !IsHex(y[1]))
    ensures Decode(x + "%" + y) == None
  {
    var s := x + "%" + y;
    if x == "" {
      assert s[0] == '%' && s[1..] == y;
      assert |y| >= 2 ==> s[1] == y[0] && s[2] == y[1];
    } else {
      assert s[0] == x[0] && s[1..] == x[1..] + "%" + y;
      FreeCons(x, '%');
      Malformed(x[1..], y);
    }
  }

  lemma DecodeOne(c: char, rest: string, hex: string)
    requires IsByte(c) && (hex == HEX || hex == HEX_LOWER)
    ensures Decode(Escape(c, hex) + rest) == Prefixed(c, Decode(rest))
  {
    HexDigits(c as int / 16);
    HexDigits(c as int % 16);
    var t := Escape(c, hex) + rest;
    assert t[0] == '%' && t[1] == hex[c as int / 16] && t[2] == hex[c as int % 16] && t[3..] == rest;
    assert 16 * (c as int / 16) + c as int % 16 == c as int;
  }
}
