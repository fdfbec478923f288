/**
 * The Pix payment modal: the amount typed by the payer, the gate in front of
 * QR generation, and the payload it then encodes.  The QR image itself comes
 * from a library outside the model; its outcome enters as a parameter
 * (`Some(url)` for a data URL, `None` when it throws).
 */
module PixModal {
  import opened Common
  import opened Currency
  import opened PixPayload

  const MissingAmount: string := "* Obrigatório Digitar Valor"

  /**
   * The gate of `handleGenerateQR`: refused when the amount has no digit at
   * all or its value is not positive.
   */
  predicate Refused(amount: string)
  {
    var numbers := DigitsOnly(amount);
    numbers == [] || DecValue(numbers) == 0
  }

  /** The gate lets exactly the amounts through whose parsed cents are positive. */
  lemma RefusedIff(amount: string)
    ensures Refused(amount) <==> ParseCents(amount) == 0
    ensures !Refused(amount) ==> DigitsOnly(amount) != []
  {
  }

  /** Whatever the payer types, an amount of at least one cent is accepted by the gate. */
  lemma TypedAmountAccepted(value: string)
    requires ParseCents(value) > 0
    ensures !Refused(FormatCurrency(value))
    ensures ParseCents(FormatCurrency(value)) == ParseCents(value)
  {
    FormatThenParse(value);
  }

  class Modal {
    const pixKey: string
    const beneficiaryName: string
    const city: string
    var amount: string
    var qrCodeUrl: string
    var pixPayload: string
    var showQR: bool
    var error: string

    /** The modal as it starts: nothing typed, no QR, no error. */
    constructor (pixKey: string, beneficiaryName: string, city: string)
      ensures this.pixKey == pixKey && this.beneficiaryName == beneficiaryName && this.city == city
      ensures amount == "" && qrCodeUrl == "" && pixPayload == "" && !showQR && error == ""
    {
      this.pixKey := pixKey;
      this.beneficiaryName := beneficiaryName;
      this.city := city;
      amount := "";
      qrCodeUrl := "";
      pixPayload := "";
      showQR := false;
      error := "";
    }

    /** `handleAmountChange`: the amount is reformatted, nothing else changes. */
    method HandleAmountChange(value: string)
      modifies this
      ensures amount == FormatCurrency(value)
      ensures qrCodeUrl == old(qrCodeUrl) && pixPayload == old(pixPayload)
      ensures showQR == old(showQR) && error == old(error)
    {
      amount := FormatCurrency(value);
    }

    /** The input's `onChange`: the amount is reformatted and the error cleared. */
    method AmountInput(value: string)
      modifies this
      ensures amount == FormatCurrency(value) && error == ""
      ensures qrCodeUrl == old(qrCodeUrl) && pixPayload == old(pixPayload) && showQR == old(showQR)
    {
      amount := FormatCurrency(value);
      error := "";
    }

    /**
     * `handleGenerateQR` followed by `generateQRCode`: a refused amount sets
     * the error and changes nothing else; an accepted one encodes the
     * payload with the amount and, when the QR library succeeds, stores its
     * URL and shows the QR view.  When it fails, the payload is kept and the
     * view stays where it was.
     */
    method HandleGenerateQR(qrResult: Option<string>)
      modifies this
      ensures amount == old(amount)
      ensures Refused(amount) ==>
        error == MissingAmount && pixPayload == old(pixPayload) &&
        qrCodeUrl == old(qrCodeUrl) && showQR == old(showQR)
      ensures !Refused(amount) ==>
        error == "" && pixPayload == Payload(pixKey, beneficiaryName, city, ParseCents(amount))
      ensures !Refused(amount) && qrResult.Some? ==> qrCodeUrl == qrResult.value && showQR
      ensures !Refused(amount) && qrResult.None? ==> qrCodeUrl == old(qrCodeUrl) && showQR == old(showQR)
    {
      error := "";
      var numbers := DigitsOnly(amount);
      if numbers == [] || DecValue(numbers) == 0 {
        error := MissingAmount;
        return;
      }
      assert !Refused(amount);
      var payload := GeneratePayloadWithAmount(pixKey, beneficiaryName, city, amount);
      ShowPayload(payload, qrResult);
    }

    /** The payload is kept, and the QR view opens when the image was drawn. */
    method ShowPayload(payload: string, qrResult: Option<string>)
      modifies this
      ensures pixPayload == payload && amount == old(amount) && error == old(error)
      ensures qrResult.Some? ==> qrCodeUrl == qrResult.value && showQR
      ensures qrResult.None? ==> qrCodeUrl == old(qrCodeUrl) && showQR == old(showQR)
    {
      pixPayload := payload;
      match qrResult {
        case Some(url) =>
          qrCodeUrl := url;
          showQR := true;
        case None =>
      }
    }

    /** The back arrow of the QR view. */
    method BackToAmount()
      modifies this
      ensures !showQR
      ensures amount == old(amount) && qrCodeUrl == old(qrCodeUrl)
      ensures pixPayload == old(pixPayload) && error == old(error)
    {
      showQR := false;
    }

    /** Closing the modal resets the amount, the QR and the payload; the error is kept. */
    method Close()
      modifies this
      ensures amount == "" && !showQR && qrCodeUrl == "" && pixPayload == ""
      ensures error == old(error)
    {
      amount := "";
      showQR := false;
      qrCodeUrl := "";
      pixPayload := "";
    }
  }

  /** An accepted amount yields a payload carrying its amount field. */
  lemma AcceptedPayloadHasAmount(pixKey: string, name: string, city: string, amount: string)
    requires !Refused(amount)
    ensures FieldValue(PayloadObjects(pixKey, name, city, ParseCents(amount)), "54") ==
      Some(Fixed2(ParseCents(amount)))
  {
    AmountField(pixKey, name, city, ParseCents(amount));
  }
}
