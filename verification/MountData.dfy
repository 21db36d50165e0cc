/** The bpffs mount-option string, and a reader that inverts it. */
module MountData {
  import opened Wrappers
  import opened Bits

  datatype DelegationOpts = DelegationOpts(cmds: u32, progs: u32, maps: u32, attachs: u32)

  // ---- Printing

  function HexDigit(d: nat): char
    requires d < 16
  {
    "0123456789abcdef"[d]
  }

  /** Lower-case hexadecimal without leading zeros. */
  function HexDigits(n: nat): (s: string)
    ensures |s| > 0
  {
    if n < 16 then [HexDigit(n)] else HexDigits(n / 16) + [HexDigit(n % 16)]
  }

  /** `key={:#x}`. */
  function Field(key: string, value: nat): string {
    key + "=" + "0x" + HexDigits(value)
  }

  function JoinCommas(fields: seq<string>): string
    requires fields != []
  {
    if |fields| == 1 then fields[0] else fields[0] + [','] + JoinCommas(fields[1..])
  }

  function Fields(opts: DelegationOpts): seq<string> {
    [Field("delegate_cmds", opts.cmds)] + [Field("delegate_progs", opts.progs)]
    + [Field("delegate_maps", opts.maps)] + [Field("delegate_attachs", opts.attachs)]
  }

  function ToMountData(opts: DelegationOpts): string {
    JoinCommas(Fields(opts))
  }

  // ---- Reading: comma-separated `key=0x...` fields, in any order, the last of a key counting

  /** Index of the first `c`, or the length. */
  function IndexOf(s: string, c: char): (i: nat)
    ensures i <= |s| && c !in s[..i] && (i < |s| ==> s[i] == c)
  {
    if s == [] || s[0] == c then 0
    else
      var i := 1 + IndexOf(s[1..], c);
      assert s[..i] == [s[0]] + s[1..][..i - 1];
      i
  }

  function Split(s: string, c: char): seq<string>
    decreases |s|
  {
    var i := IndexOf(s, c);
    if i == |s| then [s] else [s[..i]] + Split(s[i + 1..], c)
  }

  function DigitValue(c: char): Option<nat> {
    if '0' <= c <= '9' then Some(c as nat - '0' as nat)
    else if 'a' <= c <= 'f' then Some(c as nat - 'a' as nat + 10)
    else None
  }

  function ParseHex(s: string): Option<nat> {
    if s == [] then Some(0)
    else
      var high, low := ParseHex(s[..|s| - 1]), DigitValue(s[|s| - 1]);
      if high.Some? && low.Some? then Some(16 * high.value + low.value) else None
  }

  function ParseField(f: string): Option<(string, nat)> {
    var i := IndexOf(f, '=');
    if i + 3 < |f| && f[i + 1..i + 3] == "0x" && ParseHex(f[i + 3..]).Some?
    then Some((f[..i], ParseHex(f[i + 3..]).value))
    else None
  }

  function ParseFields(fields: seq<string>): Option<map<string, nat>> {
    if fields == [] then Some(map[])
    else
      var before, f := ParseFields(fields[..|fields| - 1]), ParseField(fields[|fields| - 1]);
      if before.Some? && f.Some? then Some(before.value[f.value.0 := f.value.1]) else None
  }

  function ParseMountData(s: string): Option<DelegationOpts> {
    var r := ParseFields(Split(s, ','));
    if r.None? then None
    else
      var m := r.value;
      if && "delegate_cmds" in m && m["delegate_cmds"] <= ALL_ONES
         && "delegate_progs" in m && m["delegate_progs"] <= ALL_ONES
         && "delegate_maps" in m && m["delegate_maps"] <= ALL_ONES
         && "delegate_attachs" in m && m["delegate_attachs"] <= ALL_ONES
      then Some(DelegationOpts(m["delegate_cmds"], m["delegate_progs"], m["delegate_maps"], m["delegate_attachs"]))
      else None
  }

  // ---- The reader inverts the printer

  lemma HexDigitRoundTrip(d: nat)
    requires d < 16
    ensures DigitValue(HexDigit(d)) == Some(d) && HexDigit(d) != ',' && HexDigit(d) != '='
  {
  }

  lemma {:induction false} HexRoundTrip(n: nat)
    ensures ParseHex(HexDigits(n)) == Some(n)
    ensures ',' !in HexDigits(n)
    ensures HexDigits(n)[0] == '0' ==> n == 0
  {
    var s := HexDigits(n);
    HexDigitRoundTrip(n % 16);
    if n < 16 {
      assert s[..|s| - 1] == [];
    } else {
      assert s[..|s| - 1] == HexDigits(n / 16);
      HexRoundTrip(n / 16);
    }
  }

  lemma IndexOfFirst(a: string, c: char, b: string)
    requires c !in a
    ensures IndexOf(a + [c] + b, c) == |a|
  {
    var s := a + [c] + b;
    var i := IndexOf(s, c);
    assert s[|a|] == c;
    assert forall k :: 0 <= k < |a| ==> s[k] == a[k];
    assert forall k :: 0 <= k < i ==> s[k] in s[..i];
  }

  lemma FieldRoundTrip(key: string, value: nat)
    requires '=' !in key
    ensures ParseField(Field(key, value)) == Some((key, value))
  {
    var f := Field(key, value);
    var rest := "0x" + HexDigits(value);
    assert f == key + ['='] + rest;
    IndexOfFirst(key, '=', rest);
    assert f[|key| + 1..|key| + 3] == "0x";
    assert f[|key| + 3..] == HexDigits(value);
    assert f[..|key|] == key;
    HexRoundTrip(value);
  }

  lemma FieldHasNoComma(key: string, value: nat)
    requires ',' !in key
    ensures ',' !in Field(key, value)
  {
    HexRoundTrip(value);
  }

  lemma SplitFirst(a: string, c: char, b: string)
    requires c !in a
    ensures Split(a + [c] + b, c) == [a] + Split(b, c)
  {
    var s := a + [c] + b;
    IndexOfFirst(a, c, b);
    assert s[..|a|] == a && s[|a| + 1..] == b;
  }

  lemma SplitNone(a: string, c: char)
    requires c !in a
    ensures Split(a, c) == [a]
  {
  }

  lemma {:induction false} SplitJoined(fields: seq<string>)
    requires fields != [] && forall i :: 0 <= i < |fields| ==> ',' !in fields[i]
    ensures Split(JoinCommas(fields), ',') == fields
  {
    if |fields| == 1 {
      SplitNone(fields[0], ',');
    } else {
      SplitJoined(fields[1..]);
      SplitFirst(fields[0], ',', JoinCommas(fields[1..]));
    }
  }

  lemma ParseFieldsSnoc(fields: seq<string>, key: string, value: nat)
    requires '=' !in key && ParseFields(fields).Some?
    ensures ParseFields(fields + [Field(key, value)]) == Some(ParseFields(fields).value[key := value])
  {
    assert (fields + [Field(key, value)])[..|fields|] == fields;
    FieldRoundTrip(key, value);
  }

  lemma KeysAreClean()
    ensures '=' !in "delegate_cmds" && '=' !in "delegate_progs" && '=' !in "delegate_maps" && '=' !in "delegate_attachs"
    ensures ',' !in "delegate_cmds" && ',' !in "delegate_progs" && ',' !in "delegate_maps" && ',' !in "delegate_attachs"
  {
  }

  lemma FieldsParse(opts: DelegationOpts)
    ensures ParseFields(Fields(opts))
         == Some(map["delegate_cmds" := opts.cmds]["delegate_progs" := opts.progs]
                    ["delegate_maps" := opts.maps]["delegate_attachs" := opts.attachs])
  {
    KeysAreClean();
    var a, b := [Field("delegate_cmds", opts.cmds)], [Field("delegate_progs", opts.progs)];
    assert [] + a == a;
    ParseFieldsSnoc([], "delegate_cmds", opts.cmds);
    ParseFieldsSnoc(a, "delegate_progs", opts.progs);
    ParseFieldsSnoc(a + b, "delegate_maps", opts.maps);
    ParseFieldsSnoc(a + b + [Field("delegate_maps", opts.maps)], "delegate_attachs", opts.attachs);
  }

  /** Every quadruple of words is recovered from the string the kernel is given. */
  lemma MountDataRoundTrip(opts: DelegationOpts)
    ensures ParseMountData(ToMountData(opts)) == Some(opts)
  {
    KeysAreClean();
    FieldHasNoComma("delegate_cmds", opts.cmds);
    FieldHasNoComma("delegate_progs", opts.progs);
    FieldHasNoComma("delegate_maps", opts.maps);
    FieldHasNoComma("delegate_attachs", opts.attachs);
    SplitJoined(Fields(opts));
    FieldsParse(opts);
  }

  /** So different delegations never print alike. */
  lemma MountDataInjective(a: DelegationOpts, b: DelegationOpts)
    requires ToMountData(a) == ToMountData(b)
    ensures a == b
  {
    MountDataRoundTrip(a);
    MountDataRoundTrip(b);
  }

  lemma JoinFour(a: string, b: string, c: string, d: string)
    ensures JoinCommas([a, b, c, d]) == a + [','] + (b + [','] + (c + [','] + d))
  {
    assert [a, b, c, d][1..] == [b, c, d] && [b, c, d][1..] == [c, d] && [c, d][1..] == [d];
    assert JoinCommas([c, d]) == c + [','] + d;
    assert JoinCommas([b, c, d]) == b + [','] + JoinCommas([c, d]);
  }

  lemma FieldTexts(value: nat)
    ensures Field("delegate_cmds", value) == "delegate_cmds=0x" + HexDigits(value)
    ensures Field("delegate_progs", value) == "delegate_progs=0x" + HexDigits(value)
    ensures Field("delegate_maps", value) == "delegate_maps=0x" + HexDigits(value)
    ensures Field("delegate_attachs", value) == "delegate_attachs=0x" + HexDigits(value)
  {
    assert "delegate_cmds" + "=" + "0x" == "delegate_cmds=0x";
    assert "delegate_progs" + "=" + "0x" == "delegate_progs=0x";
    assert "delegate_maps" + "=" + "0x" == "delegate_maps=0x";
    assert "delegate_attachs" + "=" + "0x" == "delegate_attachs=0x";
  }

  /** The string itself, field by field. */
  lemma MountDataFormat(opts: DelegationOpts)
    ensures ToMountData(opts)
         == ("delegate_cmds=0x" + HexDigits(opts.cmds)) + [','] + (("delegate_progs=0x" + HexDigits(opts.progs)) + [',']
            + (("delegate_maps=0x" + HexDigits(opts.maps)) + [','] + ("delegate_attachs=0x" + HexDigits(opts.attachs))))
  {
    FieldTexts(opts.cmds);
    FieldTexts(opts.progs);
    FieldTexts(opts.maps);
    FieldTexts(opts.attachs);
    var a, b := Field("delegate_cmds", opts.cmds), Field("delegate_progs", opts.progs);
    var c, d := Field("delegate_maps", opts.maps), Field("delegate_attachs", opts.attachs);
    assert Fields(opts) == [a, b, c, d];
    JoinFour(a, b, c, d);
  }

  /** The digits of the documented example. */
  lemma HexExamples()
    ensures HexDigits(0x1F) == "1f" && HexDigits(0x24) == "24" && HexDigits(0) == "0"
    ensures HexDigits(0xABCDE) == "abcde"
    ensures forall d: nat :: d < 16 ==>
              HexDigits(d) == [if d < 10 then '0' + d as char else 'a' + (d - 10) as char]
  {
    assert HexDigits(0xAB) == "ab" && HexDigits(0xABC) == "abc" && HexDigits(0xABCD) == "abcd";
  }
}
