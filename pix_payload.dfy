/**
 * The Pix "copia e cola" text, built by `generatePixPayload` in
 * src/components/PixModal.tsx (with an amount) and in
 * src/components/dashboard/PixManager.tsx (without one).
 *
 * The text is a run of data objects of the EMVCo QR Code Specification for
 * Payment Systems, Merchant-Presented Mode, in the BR Code profile of the
 * Banco Central do Brasil: a two-character ID, a two-digit length and the
 * value.  The specification functions below state the payload as a list of
 * such objects; the two methods build it as the components do, by pushing
 * literal strings onto an array, joining it and appending the checksum.
 */
module PixPayload {
  import opened Common
  import opened Crc16
  import opened Currency

  // ---------------------------------------------------------------------------
  // Data objects
  // ---------------------------------------------------------------------------

  datatype DataObject = DataObject(id: string, value: string)

  /** An object as written: ID, `value.length.toString().padStart(2, "0")`, value. */
  function Emit(o: DataObject): string
  {
    o.id + Pad2(|o.value|) + o.value
  }

  function EmitAll(os: seq<DataObject>): string
  {
    if os == [] then [] else Emit(os[0]) + EmitAll(os[1..])
  }

  /** An object that fits the format: a two-character ID and fewer than 100 units of value. */
  predicate WellFormed(o: DataObject) { |o.id| == 2 && |o.value| < 100 }

  predicate AllWellFormed(os: seq<DataObject>) { forall i :: 0 <= i < |os| ==> WellFormed(os[i]) }

  /** How a reader splits a text into data objects; None when it does not split. */
  function ParseObjects(s: string): Option<seq<DataObject>>
    decreases |s|
  {
    if s == [] then Some([])
    else if |s| < 4 || !AllDigits(s[2..4]) then None
    else
      var n := DecValue(s[2..4]);
      if |s| < 4 + n then None
      else
        match ParseObjects(s[4 + n..])
        case None => None
        case Some(rest) => Some([DataObject(s[..2], s[4..4 + n])] + rest)
  }

  lemma EmitAppend(a: seq<DataObject>, b: seq<DataObject>)
    ensures EmitAll(a + b) == EmitAll(a) + EmitAll(b)
    decreases |a|
  {
    if a == [] {
      assert a + b == b;
    } else {
      assert (a + b)[1..] == a[1..] + b;
      EmitAppend(a[1..], b);
    }
  }

  lemma ParseOne(o: DataObject, rest: string)
    requires WellFormed(o)
    ensures var s := Emit(o) + rest;
      |s| >= 4 && AllDigits(s[2..4]) && DecValue(s[2..4]) == |o.value| &&
      s[..2] == o.id && s[4..4 + |o.value|] == o.value && s[4 + |o.value|..] == rest
  {
    Pad2RoundTrip(|o.value|);
    var id, p, v := o.id, Pad2(|o.value|), o.value;
    var u := v + rest;
    var t := p + u;
    var s := Emit(o) + rest;
    assert s == id + t;
    assert s[..2] == id && s[2..] == t;
    assert t[..2] == p && t[2..] == u;
    assert u[..|v|] == v && u[|v|..] == rest;
    assert s[2..4] == t[..2];
    assert s[4..4 + |v|] == u[..|v|];
    assert s[4 + |v|..] == u[|v|..];
  }

  /** Reading back the text of well-formed objects gives the same objects. */
  lemma {:induction false} ParseEmit(os: seq<DataObject>)
    requires AllWellFormed(os)
    ensures ParseObjects(EmitAll(os)) == Some(os)
    decreases |os|
  {
    if os != [] {
      var o, tail := os[0], os[1..];
      var n := |o.value|;
      var s := EmitAll(os);
      assert s == Emit(o) + EmitAll(tail);
      ParseOne(o, EmitAll(tail));
      assert ParseObjects(s[4 + n..]) == Some(tail) by {
        ParseEmit(tail);
      }
      assert DataObject(s[..2], s[4..4 + n]) == o;
      assert ParseObjects(s) == Some([o] + tail);
      assert [o] + tail == os;
    }
  }

  // ---------------------------------------------------------------------------
  // The payload as data objects
  // ---------------------------------------------------------------------------

  /** The globally unique identifier of the Pix arrangement (sub-ID 00 of ID 26). */
  const PixGui := "br.gov.bcb.pix"

  /** The key as it is encoded: `pixKey.replace(/\D/g, "")`, whatever its type. */
  function EncodedKey(pixKey: string): (k: string)
    ensures AllDigits(k) && |k| <= |pixKey|
  {
    DigitsOnly(pixKey)
  }

  /** Merchant Account Information (ID 26): the GUI (00) and the key (01). */
  function MerchantAccount(pixKey: string): DataObject
  {
    DataObject("26", EmitAll([DataObject("00", PixGui), DataObject("01", EncodedKey(pixKey))]))
  }


  /**
   * The objects before the checksum, in order: Payload Format Indicator (00),
   * Merchant Account Information (26), Merchant Category Code (52), Transaction
   * Currency 986 = BRL (53), the Transaction Amount (54) when there is a
   * positive one, Country Code (58), Merchant Name (59) and Merchant City (60).
   */
  function PayloadObjects(pixKey: string, name: string, city: string, cents: nat): seq<DataObject>
  {
    var leading := [] + [DataObject("00", "01")] + [MerchantAccount(pixKey)] + [DataObject("52", "0000")] + [DataObject("53", "986")];
    var withAmount := if cents > 0 then leading + [DataObject("54", Fixed2(cents))] else leading;
    withAmount + [DataObject("58", "BR")] + [DataObject("59", Take(name, 25))] + [DataObject("60", Take(city, 15))]
  }

  /** The same objects in three groups: the fixed leading ones, the optional amount, and the trailing ones. */
  lemma PayloadGroups(pixKey: string, name: string, city: string, cents: nat)
    ensures PayloadObjects(pixKey, name, city, cents) == Leading(pixKey) + AmountObjects(cents) + Trailing(name, city)
  {
  }

  function Leading(pixKey: string): seq<DataObject>
  {
    [DataObject("00", "01"), MerchantAccount(pixKey), DataObject("52", "0000"), DataObject("53", "986")]
  }

  function AmountObjects(cents: nat): seq<DataObject>
  {
    if cents > 0 then [DataObject("54", Fixed2(cents))] else []
  }

  function Trailing(name: string, city: string): seq<DataObject>
  {
    [DataObject("58", "BR"), DataObject("59", Take(name, 25)), DataObject("60", Take(city, 15))]
  }

  /** Everything the checksum covers: the objects and the ID and length of the CRC object. */
  function Body(pixKey: string, name: string, city: string, cents: nat): string
  {
    EmitAll(PayloadObjects(pixKey, name, city, cents)) + "6304"
  }

  /** The complete text: the body followed by the four-digit CRC of the body. */
  function Payload(pixKey: string, name: string, city: string, cents: nat): string
  {
    var body := Body(pixKey, name, city, cents);
    body + Hex4(Crc16Ccitt(body) as int)
  }

  /** The check a reader makes: the last four characters are the CRC of all the rest. */
  predicate ChecksumValid(s: string)
  {
    |s| >= 8 && s[|s| - 8..|s| - 4] == "6304" && s[|s| - 4..] == Hex4(Crc16Ccitt(s[..|s| - 4]) as int)
  }

  // ---------------------------------------------------------------------------
  // Properties
  // ---------------------------------------------------------------------------

  /** Every payload carries a checksum that matches it. */
  lemma PayloadChecksumValid(pixKey: string, name: string, city: string, cents: nat)
    ensures ChecksumValid(Payload(pixKey, name, city, cents))
  {
    var body := Body(pixKey, name, city, cents);
    var p := Payload(pixKey, name, city, cents);
    Hex4Format(Crc16Ccitt(body) as int);
    assert p[..|p| - 4] == body;
    assert body[|body| - 4..] == "6304";
    assert p[|p| - 8..|p| - 4] == body[|body| - 4..];
  }

  /** Appending the CRC object to the text of some objects appends "6304" and the four digits. */
  lemma CrcObject(os: seq<DataObject>, crc: string)
    requires |crc| == 4
    ensures EmitAll(os + [DataObject("63", crc)]) == EmitAll(os) + "6304" + crc
  {
    EmitAppend(os, [DataObject("63", crc)]);
    assert Pad2(4) == "04";
  }

  /** The CRC object (ID 63) is a data object of length four like the others. */
  lemma PayloadObjectsWithCrc(pixKey: string, name: string, city: string, cents: nat)
    ensures Payload(pixKey, name, city, cents) ==
      EmitAll(PayloadObjects(pixKey, name, city, cents) +
              [DataObject("63", Hex4(Crc16Ccitt(Body(pixKey, name, city, cents)) as int))])
  {
    var body := Body(pixKey, name, city, cents);
    Hex4Format(Crc16Ccitt(body) as int);
    CrcObject(PayloadObjects(pixKey, name, city, cents), Hex4(Crc16Ccitt(body) as int));
  }

  /**
   * The merchant object is 22 units plus the key, so its length fits two
   * digits iff the key has at most 77 digits.
   */
  lemma MerchantAccountLength(pixKey: string)
    ensures |EncodedKey(pixKey)| < 100 ==> |MerchantAccount(pixKey).value| == 22 + |EncodedKey(pixKey)|
    ensures WellFormed(MerchantAccount(pixKey)) <==> |EncodedKey(pixKey)| <= 77
  {
    var k := EncodedKey(pixKey);
    assert Pad2(14) == "14";
    EmitAppend([DataObject("00", PixGui)], [DataObject("01", k)]);
    if |k| < 100 {
      Pad2RoundTrip(|k|);
    } else {
      Pad2Long(|k|);
    }
  }

  /** The value of the first object with a given ID, as a reader looks it up. */
  function FieldValue(os: seq<DataObject>, id: string): (r: Option<string>)
    ensures r.None? <==> forall i :: 0 <= i < |os| ==> os[i].id != id
  {
    if os == [] then None
    else if os[0].id == id then Some(os[0].value)
    else FieldValue(os[1..], id)
  }

  lemma {:induction false} FieldValueAt(os: seq<DataObject>, id: string, i: nat)
    requires i < |os| && os[i].id == id
    requires forall j :: 0 <= j < i ==> os[j].id != id
    ensures FieldValue(os, id) == Some(os[i].value)
  {
    if i > 0 {
      FieldValueAt(os[1..], id, i - 1);
    }
  }

  predicate AmountFits(cents: nat) { |Fixed2(cents)| < 100 }

  lemma {:induction false} FieldValueAppend(a: seq<DataObject>, b: seq<DataObject>, id: string)
    ensures FieldValue(a + b, id) == if FieldValue(a, id).Some? then FieldValue(a, id) else FieldValue(b, id)
    decreases |a|
  {
    if a == [] {
      assert a + b == b;
    } else {
      assert (a + b)[1..] == a[1..] + b;
      FieldValueAppend(a[1..], b, id);
    }
  }

  lemma LeadingAbsent(pixKey: string)
    ensures var l := Leading(pixKey);
      FieldValue(l, "54") == None && FieldValue(l, "58") == None &&
      FieldValue(l, "59") == None && FieldValue(l, "60") == None && FieldValue(l, "63") == None
  {
    var l := Leading(pixKey);
    assert |l| == 4 && l[0].id == "00" && l[1].id == "26" && l[2].id == "52" && l[3].id == "53";
  }

  lemma LeadingValues(pixKey: string)
    ensures var l := Leading(pixKey);
      FieldValue(l, "00") == Some("01") && FieldValue(l, "26") == Some(MerchantAccount(pixKey).value) &&
      FieldValue(l, "52") == Some("0000") && FieldValue(l, "53") == Some("986")
  {
    var l := Leading(pixKey);
    FieldValueAt(l, "00", 0);
    FieldValueAt(l, "26", 1);
    FieldValueAt(l, "52", 2);
    FieldValueAt(l, "53", 3);
  }

  lemma TrailingValues(name: string, city: string)
    ensures var t := Trailing(name, city);
      FieldValue(t, "58") == Some("BR") && FieldValue(t, "59") == Some(Take(name, 25)) &&
      FieldValue(t, "60") == Some(Take(city, 15)) && FieldValue(t, "63") == None &&
      FieldValue(t, "54") == None
  {
    var t := Trailing(name, city);
    FieldValueAt(t, "58", 0);
    FieldValueAt(t, "59", 1);
    FieldValueAt(t, "60", 2);
  }

  lemma AmountValues(cents: nat)
    ensures var m := AmountObjects(cents);
      FieldValue(m, "54") == (if cents > 0 then Some(Fixed2(cents)) else None) &&
      FieldValue(m, "58") == None && FieldValue(m, "59") == None &&
      FieldValue(m, "60") == None && FieldValue(m, "63") == None
  {
  }

  /** Looking an ID up in the three groups: the first group that has it answers. */
  lemma FieldValueGroups(l: seq<DataObject>, m: seq<DataObject>, t: seq<DataObject>, id: string)
    ensures FieldValue(l + m + t, id) ==
      if FieldValue(l, id).Some? then FieldValue(l, id)
      else if FieldValue(m, id).Some? then FieldValue(m, id) else FieldValue(t, id)
  {
    FieldValueAppend(l + m, t, id);
    FieldValueAppend(l, m, id);
  }

  /** The IDs and values a reader finds in the objects before the checksum: the fixed leading ones. */
  lemma PayloadFieldValues(pixKey: string, name: string, city: string, cents: nat)
    ensures var os := PayloadObjects(pixKey, name, city, cents);
      FieldValue(os, "00") == Some("01") &&
      FieldValue(os, "26") == Some(MerchantAccount(pixKey).value) &&
      FieldValue(os, "52") == Some("0000") &&
      FieldValue(os, "53") == Some("986")
  {
    var l, m, t := Leading(pixKey), AmountObjects(cents), Trailing(name, city);
    PayloadGroups(pixKey, name, city, cents);
    LeadingValues(pixKey);
    FieldValueGroups(l, m, t, "00");
    FieldValueGroups(l, m, t, "26");
    FieldValueGroups(l, m, t, "52");
    FieldValueGroups(l, m, t, "53");
  }

  /**
   * ... and the name and city: the first 25 and 15 code units; a name of 25
   * units is kept whole and from the 26th on nothing more is kept.  There is
   * no object 63 before the checksum.
   */
  lemma PayloadNameCity(pixKey: string, name: string, city: string, cents: nat)
    ensures var os := PayloadObjects(pixKey, name, city, cents);
      FieldValue(os, "58") == Some("BR") &&
      FieldValue(os, "59") == Some(Take(name, 25)) &&
      FieldValue(os, "60") == Some(Take(city, 15)) &&
      FieldValue(os, "63") == None
  {
    var l, m, t := Leading(pixKey), AmountObjects(cents), Trailing(name, city);
    PayloadGroups(pixKey, name, city, cents);
    LeadingAbsent(pixKey);
    TrailingValues(name, city);
    AmountValues(cents);
    FieldValueGroups(l, m, t, "58");
    FieldValueGroups(l, m, t, "59");
    FieldValueGroups(l, m, t, "60");
    FieldValueGroups(l, m, t, "63");
  }

  /** The amount object is there exactly when the amount is positive, and it reads back as the amount. */
  lemma AmountField(pixKey: string, name: string, city: string, cents: nat)
    ensures FieldValue(PayloadObjects(pixKey, name, city, cents), "54").Some? <==> cents > 0
    ensures cents > 0 ==> FieldValue(PayloadObjects(pixKey, name, city, cents), "54") == Some(Fixed2(cents))
    ensures cents > 0 ==> ParseCents(FieldValue(PayloadObjects(pixKey, name, city, cents), "54").value) == cents
  {
    var l, m, t := Leading(pixKey), AmountObjects(cents), Trailing(name, city);
    var os := PayloadObjects(pixKey, name, city, cents);
    assert FieldValue(os, "54") == FieldValue(m, "54") by {
      PayloadGroups(pixKey, name, city, cents);
      LeadingAbsent(pixKey);
      TrailingValues(name, city);
      FieldValueGroups(l, m, t, "54");
    }
    AmountValues(cents);
    Fixed2Digits(cents);
  }

  lemma PayloadObjectsWellFormed(pixKey: string, name: string, city: string, cents: nat, crc: string)
    requires |EncodedKey(pixKey)| <= 77 && AmountFits(cents) && |crc| == 4
    ensures AllWellFormed(PayloadObjects(pixKey, name, city, cents) + [DataObject("63", crc)])
  {
    MerchantAccountLength(pixKey);
  }

  /**
   * When the key has at most 77 digits, the whole payload reads back as the
   * objects it was made of followed by the CRC object, and the merchant
   * object reads back as the GUI and the digits-only key.
   */
  lemma PayloadParses(pixKey: string, name: string, city: string, cents: nat)
    requires |EncodedKey(pixKey)| <= 77 && AmountFits(cents)
    ensures var crc := Hex4(Crc16Ccitt(Body(pixKey, name, city, cents)) as int);
      ParseObjects(Payload(pixKey, name, city, cents)) ==
      Some(PayloadObjects(pixKey, name, city, cents) + [DataObject("63", crc)])
  {
    var crc := Hex4(Crc16Ccitt(Body(pixKey, name, city, cents)) as int);
    Hex4Format(Crc16Ccitt(Body(pixKey, name, city, cents)) as int);
    PayloadObjectsWithCrc(pixKey, name, city, cents);
    PayloadObjectsWellFormed(pixKey, name, city, cents, crc);
    ParseEmit(PayloadObjects(pixKey, name, city, cents) + [DataObject("63", crc)]);
  }

  /** The merchant account object's value parses back into the GUI and the key. */
  lemma MerchantParses(pixKey: string)
    requires |EncodedKey(pixKey)| <= 77
    ensures ParseObjects(MerchantAccount(pixKey).value) ==
      Some([DataObject("00", PixGui), DataObject("01", EncodedKey(pixKey))])
  {
    ParseEmit([DataObject("00", PixGui), DataObject("01", EncodedKey(pixKey))]);
  }

  /** The payload without an amount is the payload of a zero amount: PixManager's variant. */
  lemma NoAmountField(pixKey: string, name: string, city: string)
    ensures FieldValue(PayloadObjects(pixKey, name, city, 0), "54") == None
    ensures |PayloadObjects(pixKey, name, city, 0)| == 7
  {
    AmountField(pixKey, name, city, 0);
  }

  /**
   * Truncating the name and city before the call changes nothing: the
   * payload keeps at most 25 and 15 characters of them anyway.
   */
  lemma TruncationIdempotent(pixKey: string, name: string, city: string, cents: nat)
    ensures Payload(pixKey, Take(name, 25), Take(city, 15), cents) == Payload(pixKey, name, city, cents)
  {
    assert Take(Take(name, 25), 25) == Take(name, 25);
    assert Take(Take(city, 15), 15) == Take(city, 15);
  }

  /** An amount of 10.50 is the object with ID 54, length 05 and value "10.50". */
  lemma AmountExample()
    ensures AmountObjects(1050) == [DataObject("54", "10.50")]
    ensures Emit(DataObject("54", "10.50")) == "540510.50"
  {
    assert DecStr(1) == "1";
    assert DecStr(10) == "10";
    assert DecStr(5) == "5";
    assert DecStr(50) == "50";
    assert Pad2(50) == "50";
    assert Pad2(5) == "05";
    assert 1050 / 100 == 10 && 1050 % 100 == 50;
    assert Fixed2(1050) == "10" + "." + "50";
    assert "10" + "." + "50" == "10.50";
  }

  // ---------------------------------------------------------------------------
  // generatePixPayload, as the two components write it
  // ---------------------------------------------------------------------------

  /** The texts of the objects, one per object: what is pushed onto `payloadItems`. */
  function Emits(os: seq<DataObject>): (r: seq<string>)
    ensures |r| == |os| && forall i :: 0 <= i < |os| ==> r[i] == Emit(os[i])
  {
    seq(|os|, i requires 0 <= i < |os| => Emit(os[i]))
  }

  lemma {:induction false} EmitAllConcat(os: seq<DataObject>)
    ensures EmitAll(os) == Concat(Emits(os))
    decreases |os|
  {
    if os != [] {
      EmitAllConcat(os[1..]);
      assert Emits(os)[1..] == Emits(os[1..]);
    }
  }

  /** The literal texts pushed for the fixed objects. */
  lemma FixedTexts()
    ensures Emit(DataObject("00", "01")) == "000201"
    ensures Emit(DataObject("52", "0000")) == "52040000"
    ensures Emit(DataObject("53", "986")) == "5303986"
    ensures Emit(DataObject("58", "BR")) == "5802BR"
  {
    assert Pad2(2) == "02";
    assert Pad2(4) == "04";
    assert Pad2(3) == "03";
  }

  /** `0014br.gov.bcb.pix01` + pad2(|k|) + k is the GUI object followed by the key object. */
  lemma MerchantText(pixKey: string)
    ensures "0014br.gov.bcb.pix01" + Pad2(|EncodedKey(pixKey)|) + EncodedKey(pixKey) ==
      MerchantAccount(pixKey).value
  {
    var k := EncodedKey(pixKey);
    EmitPair(DataObject("00", PixGui), DataObject("01", k));
    GuiText();
    assert "0014br.gov.bcb.pix01" + Pad2(|k|) + k == "0014br.gov.bcb.pix" + ("01" + Pad2(|k|) + k);
  }

  lemma GuiText()
    ensures Emit(DataObject("00", PixGui)) == "0014br.gov.bcb.pix"
  {
    var o := DataObject("00", PixGui);
    assert |o.value| == 14;
    assert Emit(o) == "00" + Pad2(14) + PixGui;
    assert Pad2(14) == "14" by { Pad2RoundTrip(14); assert DecStr(14) == "14"; }
  }

  lemma EmitPair(a: DataObject, b: DataObject)
    ensures EmitAll([a, b]) == Emit(a) + Emit(b)
  {
    EmitAppend([a], [b]);
    assert [a][1..] == [] && [b][1..] == [];
  }

  /** The joined items of the three groups, followed by "6304", are the checksummed body. */
  lemma AssembleBody(items: seq<string>, pixKey: string, name: string, city: string, cents: nat)
    requires items == Emits(PayloadObjects(pixKey, name, city, cents))
    ensures Concat(items) + "6304" == Body(pixKey, name, city, cents)
  {
    EmitAllConcat(PayloadObjects(pixKey, name, city, cents));
  }

  lemma EmitsSnoc(os: seq<DataObject>, o: DataObject)
    ensures Emits(os + [o]) == Emits(os) + [Emit(o)]
  {
  }

  /**
   * `generatePixPayload` of PixModal: the items are pushed one by one, the
   * amount object only for a positive amount, then joined, followed by
   * "6304" and the `crc16` of all of it.  `amount` is the formatted text the
   * input holds.  The ghost list `objects` names the data object each pushed
   * item spells.
   */
  method GeneratePayloadWithAmount(pixKey: string, beneficiaryName: string, city: string, amount: string)
    returns (payload: string)
    ensures payload == Payload(pixKey, beneficiaryName, city, ParseCents(amount))
  {
    FixedTexts();
    var payloadItems: seq<string> := [];
    ghost var objects: seq<DataObject> := [];
    EmitsSnoc(objects, DataObject("00", "01"));
    payloadItems, objects := payloadItems + ["000201"], objects + [DataObject("00", "01")];

    var key := DigitsOnly(pixKey);
    var merchantInfo := "0014br.gov.bcb.pix01" + Pad2(|key|) + key;
    MerchantText(pixKey);
    EmitsSnoc(objects, MerchantAccount(pixKey));
    payloadItems := payloadItems + ["26" + Pad2(|merchantInfo|) + merchantInfo];
    objects := objects + [MerchantAccount(pixKey)];

    EmitsSnoc(objects, DataObject("52", "0000"));
    payloadItems, objects := payloadItems + ["52040000"], objects + [DataObject("52", "0000")];
    EmitsSnoc(objects, DataObject("53", "986"));
    payloadItems, objects := payloadItems + ["5303986"], objects + [DataObject("53", "986")];

    var amountValue := ParseCents(amount);
    if amountValue > 0 {
      var formattedAmount := Fixed2(amountValue);
      EmitsSnoc(objects, DataObject("54", formattedAmount));
      payloadItems := payloadItems + ["54" + Pad2(|formattedAmount|) + formattedAmount];
      objects := objects + [DataObject("54", formattedAmount)];
    }

    EmitsSnoc(objects, DataObject("58", "BR"));
    payloadItems, objects := payloadItems + ["5802BR"], objects + [DataObject("58", "BR")];
    var name := Take(beneficiaryName, 25);
    EmitsSnoc(objects, DataObject("59", name));
    payloadItems, objects := payloadItems + ["59" + Pad2(|name|) + name], objects + [DataObject("59", name)];
    var cityName := Take(city, 15);
    EmitsSnoc(objects, DataObject("60", cityName));
    payloadItems, objects := payloadItems + ["60" + Pad2(|cityName|) + cityName], objects + [DataObject("60", cityName)];

    assert objects == PayloadObjects(pixKey, beneficiaryName, city, amountValue);
    AssembleBody(payloadItems, pixKey, beneficiaryName, city, amountValue);
    var payloadText := Concat(payloadItems) + "6304";
    var checksum := Crc16Js(payloadText);
    payload := payloadText + checksum;
  }

  /**
   * `generatePixPayload` of PixManager: the same pushes without the amount
   * object, so the payload is the one of a zero amount.
   */
  method GeneratePayload(pixKey: string, beneficiaryName: string, city: string)
    returns (payload: string)
    ensures payload == Payload(pixKey, beneficiaryName, city, 0)
  {
    FixedTexts();
    var payloadItems: seq<string> := [];
    ghost var objects: seq<DataObject> := [];
    EmitsSnoc(objects, DataObject("00", "01"));
    payloadItems, objects := payloadItems + ["000201"], objects + [DataObject("00", "01")];

    var key := DigitsOnly(pixKey);
    var merchantInfo := "0014br.gov.bcb.pix01" + Pad2(|key|) + key;
    MerchantText(pixKey);
    EmitsSnoc(objects, MerchantAccount(pixKey));
    payloadItems := payloadItems + ["26" + Pad2(|merchantInfo|) + merchantInfo];
    objects := objects + [MerchantAccount(pixKey)];

    EmitsSnoc(objects, DataObject("52", "0000"));
    payloadItems, objects := payloadItems + ["52040000"], objects + [DataObject("52", "0000")];
    EmitsSnoc(objects, DataObject("53", "986"));
    payloadItems, objects := payloadItems + ["5303986"], objects + [DataObject("53", "986")];
    EmitsSnoc(objects, DataObject("58", "BR"));
    payloadItems, objects := payloadItems + ["5802BR"], objects + [DataObject("58", "BR")];

    var name := Take(beneficiaryName, 25);
    EmitsSnoc(objects, DataObject("59", name));
    payloadItems, objects := payloadItems + ["59" + Pad2(|name|) + name], objects + [DataObject("59", name)];
    var cityName := Take(city, 15);
    EmitsSnoc(objects, DataObject("60", cityName));
    payloadItems, objects := payloadItems + ["60" + Pad2(|cityName|) + cityName], objects + [DataObject("60", cityName)];

    assert objects == PayloadObjects(pixKey, beneficiaryName, city, 0);
    AssembleBody(payloadItems, pixKey, beneficiaryName, city, 0);
    var payloadText := Concat(payloadItems) + "6304";
    var checksum := Crc16Js(payloadText);
    payload := payloadText + checksum;
  }
}
