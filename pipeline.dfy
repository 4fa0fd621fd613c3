/** The two prediction branches of cop_mod.py: the selling-price form (lines
    68-129) and the lead-status form (lines 133-186). Each submission validates
    its numeric fields, builds a one-row sample, selects and concatenates its
    feature columns, scales them and asks a fitted model for a prediction.
    The fitted artifacts and the floating-point `log`/`exp` are parameters. */
module Pipeline {
  import opened Numeral
  import opened Validation
  import Options

  // ---------------------------------------------------------------------------
  // Artifacts
  // ---------------------------------------------------------------------------

  /** A fitted categorical encoder (the item-type `OneHotEncoder`, the status
      `LabelBinarizer`); its output width is fixed when it is fitted. */
  datatype Encoder = Encoder(width: nat, encode: string -> seq<real>)
  {
    ghost predicate Valid()
    {
      forall c :: |encode(c)| == width
    }
  }

  /** A fitted `StandardScaler`; it only accepts rows of the width it was
      fitted on. */
  datatype Scaler = Scaler(width: nat, transform: seq<real> -> seq<real>)

  /** `np.log` and `np.exp`. */
  datatype Numerics = Numerics(log: real -> real, exp: real -> real)

  /** model.pkl, scaler.pkl, t.pkl and s.pkl (lines 111-121). */
  datatype PriceArtifacts =
    PriceArtifacts(model: seq<real> -> real, scaler: Scaler, itemTypes: Encoder, statuses: Encoder)

  /** cmodel.pkl, cscaler.pkl and ct.pkl (lines 166-174). */
  datatype StatusArtifacts =
    StatusArtifacts(model: seq<real> -> int, scaler: Scaler, itemTypes: Encoder)

  /** Artifacts fitted on the column layout that line 126 builds. */
  ghost predicate PriceConfigured(art: PriceArtifacts)
  {
    && art.itemTypes.Valid()
    && art.statuses.Valid()
    && art.scaler.width == 7 + art.itemTypes.width + art.statuses.width
  }

  /** Artifacts fitted on the column layout that line 180 builds. */
  ghost predicate StatusConfigured(art: StatusArtifacts)
  {
    art.itemTypes.Valid() && art.scaler.width == 8 + art.itemTypes.width
  }

  // ---------------------------------------------------------------------------
  // Samples and column selection
  // ---------------------------------------------------------------------------

  /** One cell of the one-row sample array. */
  datatype Cell = Num(x: real) | Label(text: string)

  /** `sample[:, cols]`: the cells of the given columns, in the given order. */
  function Columns(row: seq<Cell>, cols: seq<nat>): (r: seq<Cell>)
    requires forall k | 0 <= k < |cols| :: cols[k] < |row|
    ensures |r| == |cols| && forall k | 0 <= k < |cols| :: r[k] == row[cols[k]]
  {
    if cols == [] then [] else [row[cols[0]]] + Columns(row, cols[1..])
  }

  /** The numbers held by a run of numeric cells. */
  function Numbers(cells: seq<Cell>): (r: seq<real>)
    requires forall k | 0 <= k < |cells| :: cells[k].Num?
    ensures |r| == |cells| && forall k | 0 <= k < |cells| :: r[k] == cells[k].x
  {
    if cells == [] then [] else [cells[0].x] + Numbers(cells[1..])
  }

  /** All fields of a list pass the pattern. */
  predicate AllValid(fields: seq<string>)
  {
    forall j | 0 <= j < |fields| :: Matches(fields[j])
  }

  // ---------------------------------------------------------------------------
  // Outcomes
  // ---------------------------------------------------------------------------

  /** The classifier's verdict on a lead. */
  datatype Lead = Won | Lost

  /** Lines 183-186: a prediction of 1 is a won lead, anything else a lost one. */
  function LeadOf(prediction: int): (lead: Lead)
    ensures lead == Won <==> prediction == 1
  {
    if prediction == 1 then Won else Lost
  }

  lemma LeadOfIff(prediction: int)
    ensures LeadOf(prediction) == Won <==> prediction == 1
    ensures LeadOf(prediction) == Lost <==> prediction != 1
  {
  }

  /** What one run of a form's page script ends with. `Idle` when the form was
      not submitted; `Rejected` when a numeric field fails the pattern;
      `ConversionError` when `int(...)` raises on the given string;
      `ShapeError` when the scaler was fitted on another width; otherwise the
      prediction. */
  datatype Outcome<T> =
    | Idle
    | Rejected(message: Message)
    | ConversionError(text: string)
    | ShapeError(width: nat, expected: nat)
    | Predicted(value: T)

  // ---------------------------------------------------------------------------
  // The selling-price form
  // ---------------------------------------------------------------------------

  datatype PriceForm = PriceForm(
    status: string, itemType: string, country: real, application: real, productRef: string,
    quantity: string, thickness: string, width: string, customer: string)

  /** The fields the loop of line 96 checks, in its order. */
  function PriceFields(f: PriceForm): (r: seq<string>)
    ensures |r| == 4 && r[0] == f.quantity && r[1] == f.thickness && r[2] == f.width && r[3] == f.customer
  {
    [f.quantity, f.thickness, f.width, f.customer]
  }

  /** The nine-column sample of line 123. */
  function PriceSample(f: PriceForm, num: Numerics, productId: nat): (row: seq<Cell>)
    requires AllValid(PriceFields(f))
    ensures |row| == 9 && forall k | 0 <= k < 7 :: row[k].Num?
    ensures row[1] == Num(f.application) && row[4] == Num(f.country) && row[6] == Num(productId as real)
    ensures row[7] == Label(f.itemType) && row[8] == Label(f.status)
  {
    assert Matches(PriceFields(f)[0]) && Matches(PriceFields(f)[1]) && Matches(PriceFields(f)[2]);
    assert Matches(PriceFields(f)[3]);
    [ Num(num.log(DecimalValue(f.quantity))), Num(f.application), Num(num.log(DecimalValue(f.thickness))),
      Num(DecimalValue(f.width)), Num(f.country), Num(DecimalValue(f.customer)), Num(productId as real),
      Label(f.itemType), Label(f.status) ]
  }

  /** Lines 124-126: columns 0-6, then the item-type encoding of column 7,
      then the status encoding of column 8. */
  function PriceVector(f: PriceForm, num: Numerics, productId: nat, art: PriceArtifacts): (v: seq<real>)
    requires AllValid(PriceFields(f))
    ensures |v| == 7 + |art.itemTypes.encode(f.itemType)| + |art.statuses.encode(f.status)|
    ensures v[7..7 + |art.itemTypes.encode(f.itemType)|] == art.itemTypes.encode(f.itemType)
    ensures v[7 + |art.itemTypes.encode(f.itemType)|..] == art.statuses.encode(f.status)
  {
    var row := PriceSample(f, num, productId);
    Numbers(Columns(row, [0, 1, 2, 3, 4, 5, 6]))
      + art.itemTypes.encode(row[7].text)
      + art.statuses.encode(row[8].text)
  }

  /** Columns 0-6 of the price sample are its seven numeric slots. */
  lemma PriceHead(f: PriceForm, num: Numerics, productId: nat)
    requires AllValid(PriceFields(f))
    ensures Numbers(Columns(PriceSample(f, num, productId), [0, 1, 2, 3, 4, 5, 6]))
         == [ num.log(DecimalValue(f.quantity)), f.application, num.log(DecimalValue(f.thickness)),
              DecimalValue(f.width), f.country, DecimalValue(f.customer), productId as real ]
  {
  }

  /** The column layout of the price feature vector. */
  lemma PriceVectorLayout(f: PriceForm, num: Numerics, productId: nat, art: PriceArtifacts)
    requires AllValid(PriceFields(f))
    ensures var v := PriceVector(f, num, productId, art);
      var oh := art.itemTypes.encode(f.itemType);
      && |v| == 7 + |oh| + |art.statuses.encode(f.status)|
      && v[..7] == [ num.log(DecimalValue(f.quantity)), f.application, num.log(DecimalValue(f.thickness)),
                     DecimalValue(f.width), f.country, DecimalValue(f.customer), productId as real ]
      && v[7..7 + |oh|] == oh
      && v[7 + |oh|..] == art.statuses.encode(f.status)
    ensures art.itemTypes.Valid() && art.statuses.Valid() ==>
      |PriceVector(f, num, productId, art)| == 7 + art.itemTypes.width + art.statuses.width
  {
    var row := PriceSample(f, num, productId);
    var head := Numbers(Columns(row, [0, 1, 2, 3, 4, 5, 6]));
    var v := PriceVector(f, num, productId, art);
    var oh := art.itemTypes.encode(f.itemType);
    PriceHead(f, num, productId);
    assert v == head + oh + art.statuses.encode(f.status);
    assert v[..7] == head;
  }

  /** What a submitted price form yields (lines 103-129). */
  function PriceResponse(f: PriceForm, art: PriceArtifacts, num: Numerics): (out: Outcome<real>)
    ensures out != Idle
    ensures out.Rejected? <==> !AllValid(PriceFields(f))
    ensures out.ConversionError? <==> AllValid(PriceFields(f)) && ToInt(f.productRef).None?
    ensures out.ConversionError? ==> out.text == f.productRef
    ensures out.ShapeError? ==> out.width != out.expected && out.expected == art.scaler.width
  {
    var fields := PriceFields(f);
    match FirstInvalid(fields)
    case Some(k) => Rejected(MessageFor(fields[k]))
    case None =>
      match ToInt(f.productRef)
      case None => ConversionError(f.productRef)
      case Some(productId) =>
        var v := PriceVector(f, num, productId, art);
        if |v| != art.scaler.width then ShapeError(|v|, art.scaler.width)
        else Predicted(num.exp(art.model(art.scaler.transform(v))))
  }

  /** One run of the price form: the validation loop runs on every rerun, the
      branches only when the button was pressed. */
  method SubmitPrice(f: PriceForm, art: PriceArtifacts, num: Numerics, submitted: bool)
    returns (out: Outcome<real>)
    ensures out == if submitted then PriceResponse(f, art, num) else Idle
  {
    var flag, i := ScanFields(PriceFields(f));
    out := Idle;
    if submitted && flag == 1 {
      out := Rejected(MessageFor(i));
    }
    if submitted && flag == 0 {
      var productId := ToInt(f.productRef);
      if productId.None? {
        out := ConversionError(f.productRef);
      } else {
        var v := PriceVector(f, num, productId.value, art);
        if |v| != art.scaler.width {
          out := ShapeError(|v|, art.scaler.width);
        } else {
          var scaled := art.scaler.transform(v);
          out := Predicted(num.exp(art.model(scaled)));
        }
      }
    }
  }

  /** A price submission is rejected exactly when one of its four numeric
      fields fails the pattern, and the message is the one for the first such
      field in the order quantity, thickness, width, customer. */
  lemma PriceRejection(f: PriceForm, art: PriceArtifacts, num: Numerics)
    ensures PriceResponse(f, art, num).Rejected? <==> exists j | 0 <= j < 4 :: !Matches(PriceFields(f)[j])
    ensures forall k | 0 <= k < 4 && !Matches(PriceFields(f)[k]) && (forall j | 0 <= j < k :: Matches(PriceFields(f)[j])) ::
      PriceResponse(f, art, num) == Rejected(MessageFor(PriceFields(f)[k]))
  {
    var fields := PriceFields(f);
    match FirstInvalid(fields)
    case None =>
    case Some(k) =>
      forall k' | 0 <= k' < 4 && !Matches(fields[k']) && (forall j | 0 <= j < k' :: Matches(fields[j]))
        ensures k' == k
      {
      }
  }

  /** With valid fields, a product reference from the dropdown and artifacts
      fitted on this layout, the price form always predicts, and the price is
      `exp` of the model's output on the scaled feature vector. */
  lemma PricePrediction(f: PriceForm, art: PriceArtifacts, num: Numerics, i: nat)
    requires AllValid(PriceFields(f)) && PriceConfigured(art)
    requires i < |Options.ProductOptions| && f.productRef == Options.ProductOptions[i]
    ensures ToInt(f.productRef).Some?
    ensures PriceResponse(f, art, num)
      == Predicted(num.exp(art.model(art.scaler.transform(PriceVector(f, num, ToInt(f.productRef).value, art)))))
  {
    Options.ProductRefConverts(i);
    PriceVectorLayout(f, num, ToInt(f.productRef).value, art);
  }

  // ---------------------------------------------------------------------------
  // The lead-status form
  // ---------------------------------------------------------------------------

  datatype StatusForm = StatusForm(
    quantity: string, thickness: string, width: string, customer: string, selling: string,
    itemType: string, country: real, application: real, productRef: string)

  /** The fields the loop of line 152 checks, in its order. */
  function StatusFields(f: StatusForm): (r: seq<string>)
    ensures |r| == 5 && r[0] == f.quantity && r[1] == f.thickness && r[2] == f.width && r[3] == f.customer
    ensures r[4] == f.selling
  {
    [f.quantity, f.thickness, f.width, f.customer, f.selling]
  }

  /** The nine-column sample of line 178. The customer and product reference
      enter as the results of `int(...)`. */
  function StatusSample(f: StatusForm, num: Numerics, customerId: nat, productId: nat): (row: seq<Cell>)
    requires AllValid(StatusFields(f))
    ensures |row| == 9 && forall k | 0 <= k < 8 :: row[k].Num?
    ensures row[2] == Num(f.application) && row[5] == Num(f.country)
    ensures row[6] == Num(customerId as real) && row[7] == Num(productId as real)
    ensures row[8] == Label(f.itemType)
  {
    assert Matches(StatusFields(f)[0]) && Matches(StatusFields(f)[1]) && Matches(StatusFields(f)[2]);
    assert Matches(StatusFields(f)[4]);
    [ Num(num.log(DecimalValue(f.quantity))), Num(num.log(DecimalValue(f.selling))), Num(f.application),
      Num(num.log(DecimalValue(f.thickness))), Num(DecimalValue(f.width)), Num(f.country),
      Num(customerId as real), Num(productId as real), Label(f.itemType) ]
  }

  /** Lines 179-180: columns 0-7, then the item-type encoding of column 8. */
  function StatusVector(f: StatusForm, num: Numerics, customerId: nat, productId: nat, art: StatusArtifacts): (v: seq<real>)
    requires AllValid(StatusFields(f))
    ensures |v| == 8 + |art.itemTypes.encode(f.itemType)|
    ensures v[8..] == art.itemTypes.encode(f.itemType)
  {
    var row := StatusSample(f, num, customerId, productId);
    Numbers(Columns(row, [0, 1, 2, 3, 4, 5, 6, 7])) + art.itemTypes.encode(row[8].text)
  }

  /** Columns 0-7 of the status sample are its eight numeric slots. */
  lemma StatusHead(f: StatusForm, num: Numerics, customerId: nat, productId: nat)
    requires AllValid(StatusFields(f))
    ensures Numbers(Columns(StatusSample(f, num, customerId, productId), [0, 1, 2, 3, 4, 5, 6, 7]))
         == [ num.log(DecimalValue(f.quantity)), num.log(DecimalValue(f.selling)), f.application,
              num.log(DecimalValue(f.thickness)), DecimalValue(f.width), f.country,
              customerId as real, productId as real ]
  {
  }

  /** The column layout of the status feature vector. */
  lemma StatusVectorLayout(f: StatusForm, num: Numerics, customerId: nat, productId: nat, art: StatusArtifacts)
    requires AllValid(StatusFields(f))
    ensures var v := StatusVector(f, num, customerId, productId, art);
      && |v| == 8 + |art.itemTypes.encode(f.itemType)|
      && v[..8] == [ num.log(DecimalValue(f.quantity)), num.log(DecimalValue(f.selling)), f.application,
                     num.log(DecimalValue(f.thickness)), DecimalValue(f.width), f.country,
                     customerId as real, productId as real ]
      && v[8..] == art.itemTypes.encode(f.itemType)
    ensures art.itemTypes.Valid() ==> |StatusVector(f, num, customerId, productId, art)| == 8 + art.itemTypes.width
  {
    var row := StatusSample(f, num, customerId, productId);
    var head := Numbers(Columns(row, [0, 1, 2, 3, 4, 5, 6, 7]));
    var v := StatusVector(f, num, customerId, productId, art);
    StatusHead(f, num, customerId, productId);
    assert v == head + art.itemTypes.encode(f.itemType);
    assert v[..8] == head;
  }

  /** What a submitted status form yields (lines 159-186). The product
      reference is the one selected on the price form. */
  function StatusResponse(f: StatusForm, priceProductRef: string, art: StatusArtifacts, num: Numerics): (out: Outcome<Lead>)
    ensures out != Idle
    ensures out.Rejected? <==> !AllValid(StatusFields(f))
    ensures out.ConversionError? <==>
      AllValid(StatusFields(f)) && (ToInt(f.customer).None? || ToInt(priceProductRef).None?)
    ensures out.ConversionError? ==>
      out.text == if ToInt(f.customer).None? then f.customer else priceProductRef
    ensures out.ShapeError? ==> out.width != out.expected && out.expected == art.scaler.width
  {
    var fields := StatusFields(f);
    match FirstInvalid(fields)
    case Some(k) => Rejected(MessageFor(fields[k]))
    case None =>
      match ToInt(f.customer)
      case None => ConversionError(f.customer)
      case Some(customerId) =>
        match ToInt(priceProductRef)
        case None => ConversionError(priceProductRef)
        case Some(productId) =>
          var v := StatusVector(f, num, customerId, productId, art);
          if |v| != art.scaler.width then ShapeError(|v|, art.scaler.width)
          else Predicted(LeadOf(art.model(art.scaler.transform(v))))
  }

  /** One run of the status form. */
  method SubmitStatus(f: StatusForm, priceProductRef: string, art: StatusArtifacts, num: Numerics, submitted: bool)
    returns (out: Outcome<Lead>)
    ensures out == if submitted then StatusResponse(f, priceProductRef, art, num) else Idle
  {
    var cflag, k := ScanFields(StatusFields(f));
    out := Idle;
    if submitted && cflag == 1 {
      out := Rejected(MessageFor(k));
    }
    if submitted && cflag == 0 {
      var customerId := ToInt(f.customer);
      var productId := ToInt(priceProductRef);
      if customerId.None? {
        out := ConversionError(f.customer);
      } else if productId.None? {
        out := ConversionError(priceProductRef);
      } else {
        var v := StatusVector(f, num, customerId.value, productId.value, art);
        if |v| != art.scaler.width {
          out := ShapeError(|v|, art.scaler.width);
        } else {
          var prediction := art.model(art.scaler.transform(v));
          out := Predicted(LeadOf(prediction));
        }
      }
    }
  }

  /** A status submission is rejected exactly when one of its five numeric
      fields fails the pattern, and the message is the one for the first such
      field in the order quantity, thickness, width, customer, selling price. */
  lemma StatusRejection(f: StatusForm, priceProductRef: string, art: StatusArtifacts, num: Numerics)
    ensures StatusResponse(f, priceProductRef, art, num).Rejected? <==> exists j | 0 <= j < 5 :: !Matches(StatusFields(f)[j])
    ensures forall k | 0 <= k < 5 && !Matches(StatusFields(f)[k]) && (forall j | 0 <= j < k :: Matches(StatusFields(f)[j])) ::
      StatusResponse(f, priceProductRef, art, num) == Rejected(MessageFor(StatusFields(f)[k]))
  {
    var fields := StatusFields(f);
    match FirstInvalid(fields)
    case None =>
    case Some(k) =>
      forall k' | 0 <= k' < 5 && !Matches(fields[k']) && (forall j | 0 <= j < k' :: Matches(fields[j]))
        ensures k' == k
      {
      }
  }

  /** The status form never reads its own product-reference selection: only
      the price form's one matters. */
  lemma StatusIgnoresOwnProductRef(f: StatusForm, priceProductRef: string, other: string, art: StatusArtifacts, num: Numerics)
    ensures StatusResponse(f, priceProductRef, art, num)
         == StatusResponse(f.(productRef := other), priceProductRef, art, num)
  {
    assert StatusFields(f) == StatusFields(f.(productRef := other));
  }

  /** With valid fields, a customer field that passed validation still makes
      the status form fail at `int(...)` exactly when it holds a '.' or has
      more digits than CPython converts. */
  lemma StatusCustomerConversion(f: StatusForm, priceProductRef: string, art: StatusArtifacts, num: Numerics)
    requires AllValid(StatusFields(f))
    ensures StatusResponse(f, priceProductRef, art, num) == ConversionError(f.customer)
        <==> '.' in f.customer || |IntText(f.customer)| > MaxStrDigits
  {
    assert Matches(StatusFields(f)[3]);
    IntOfAccepted(f.customer);
  }

  /** The customer field "12.5" passes validation on both forms; the price
      form converts it with `float(...)`, the status form's `int(...)` fails. */
  lemma DecimalCustomer(f: StatusForm, priceProductRef: string, art: StatusArtifacts, num: Numerics)
    requires AllValid(StatusFields(f)) && f.customer == "12.5"
    ensures StatusResponse(f, priceProductRef, art, num) == ConversionError("12.5")
  {
    DecimalPassesButIsNoInt();
  }

  /** With valid fields, a customer ID without '.', a product reference from
      the price form's dropdown and artifacts fitted on this layout, the status
      form predicts unless the customer ID has more digits than CPython
      converts, and the verdict is Won exactly when the classifier outputs 1. */
  lemma StatusPrediction(f: StatusForm, art: StatusArtifacts, num: Numerics, i: nat)
    requires AllValid(StatusFields(f)) && StatusConfigured(art) && '.' !in f.customer
    requires i < |Options.ProductOptions|
    ensures ToInt(Options.ProductOptions[i]).Some?
    ensures ToInt(f.customer).Some? <==> |IntText(f.customer)| <= MaxStrDigits
    ensures ToInt(f.customer).None? ==> StatusResponse(f, Options.ProductOptions[i], art, num) == ConversionError(f.customer)
    ensures ToInt(f.customer).Some? ==>
      var v := StatusVector(f, num, ToInt(f.customer).value, ToInt(Options.ProductOptions[i]).value, art);
      && StatusResponse(f, Options.ProductOptions[i], art, num) == Predicted(LeadOf(art.model(art.scaler.transform(v))))
      && (StatusResponse(f, Options.ProductOptions[i], art, num) == Predicted(Won) <==> art.model(art.scaler.transform(v)) == 1)
  {
    assert Matches(StatusFields(f)[3]);
    IntOfAccepted(f.customer);
    Options.ProductRefConverts(i);
    if ToInt(f.customer).Some? {
      StatusVectorLayout(f, num, ToInt(f.customer).value, ToInt(Options.ProductOptions[i]).value, art);
    }
  }
}
