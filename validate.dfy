/** Field validators of the forms (`Validate.isCpfCnpj`, `Validate.isCep`).

    A validator never rewrites the field: it hands the value back unchanged,
    together with an error message, or `None` (the source's `null`) when the
    value is acceptable.  The verdict depends only on how many digits the
    value holds. */
module Validate {
  import opened Wrappers
  import opened Masks

  datatype Checked = Checked(error: Option<string>, value: string)

  const CNPJ_ERROR: string := "CNPJ inválido"
  const CPF_ERROR: string := "CPF inválido"
  const CEP_ERROR: string := "CEP inválido"

  /** `Validate.isCpfCnpj`. */
  function IsCpfCnpj(value: string): (r: Checked)
    ensures r.value == value
    ensures r.error == None <==> |Digits(value)| == 11 || |Digits(value)| == 14
    ensures r.error == Some(CNPJ_ERROR) <==> |Digits(value)| > 11 && |Digits(value)| != 14
    ensures r.error == Some(CPF_ERROR) <==> |Digits(value)| < 11
  {
    var clean := Digits(value);
    var error :=
      if |clean| > 11 && |clean| != 14 then Some(CNPJ_ERROR)
      else if |clean| < 12 && |clean| != 11 then Some(CPF_ERROR)
      else None;
    Checked(error, value)
  }

  /** `Validate.isCep`. */
  function IsCep(value: string): (r: Checked)
    ensures r.value == value
    ensures r.error == None <==> |Digits(value)| == 8
    ensures r.error != None ==> r.error == Some(CEP_ERROR)
  {
    var clean := Digits(value);
    Checked(if |clean| != 8 then Some(CEP_ERROR) else None, value)
  }

  /** A value the CPF/CNPJ mask produced passes validation exactly when the
      mask kept 11 or 14 digits: the separators it writes never disturb the
      count. */
  lemma MaskedCpfCnpjVerdict(value: string)
    ensures IsCpfCnpj(CpfCnpj(value)).error == None <==>
            |Cap(Digits(value), CPF_CNPJ_CAP)| == 11 || |Cap(Digits(value), CPF_CNPJ_CAP)| == 14
  {
    CpfCnpjKeepsDigits(value);
  }

  lemma MaskedCepVerdict(value: string)
    ensures IsCep(Cep(value)).error == None <==> |Cap(Digits(value), CEP_CAP)| == 8
  {
    CepKeepsDigits(value);
  }
}
