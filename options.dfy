/** The closed dropdown option sets of both forms (cop_mod.py lines 57-65). */
module Options {
  import opened Numeral

  const StatusOptions: seq<string> :=
    ["Won", "Draft", "To be approved", "Lost", "Not lost for AM", "Wonderful", "Revised", "Offered", "Offerable"]

  const ItemTypeOptions: seq<string> := ["W", "WI", "S", "Others", "PL", "IPL", "SLAWR"]

  const CountryOptions: seq<real> :=
    [28.0, 25.0, 30.0, 32.0, 38.0, 78.0, 27.0, 77.0, 113.0, 79.0, 26.0, 39.0, 40.0, 84.0, 80.0, 107.0, 89.0]

  const ApplicationOptions: seq<real> :=
    [10.0, 41.0, 28.0, 59.0, 15.0, 4.0, 38.0, 56.0, 42.0, 26.0, 27.0, 19.0, 20.0, 66.0, 29.0,
     22.0, 40.0, 25.0, 67.0, 79.0, 3.0, 99.0, 2.0, 5.0, 39.0, 69.0, 70.0, 65.0, 58.0, 68.0]

  const ProductOptions: seq<string> :=
    ["611112", "611728", "628112", "628117", "628377", "640400", "640405", "640665",
     "611993", "929423819", "1282007633", "1332077137", "164141591", "164336407",
     "164337175", "1665572032", "1665572374", "1665584320", "1665584642", "1665584662",
     "1668701376", "1668701698", "1668701718", "1668701725", "1670798778", "1671863738",
     "1671876026", "1690738206", "1690738219", "1693867550", "1693867563", "1721130331", "1722207579"]

  predicate Distinct<T(==)>(s: seq<T>)
  {
    forall j | 0 <= j < |s| :: forall i | 0 <= i < j :: s[i] != s[j]
  }

  /** Each dropdown offers a fixed list without repeats. */
  lemma StatusOptionsClosed()
    ensures |StatusOptions| == 9 && Distinct(StatusOptions)
  {
  }

  lemma ItemTypeOptionsClosed()
    ensures |ItemTypeOptions| == 7 && Distinct(ItemTypeOptions)
  {
  }

  lemma CountryOptionsClosed()
    ensures |CountryOptions| == 17 && Distinct(CountryOptions)
  {
  }

  lemma ApplicationOptionsClosed()
    ensures |ApplicationOptions| == 30 && Distinct(ApplicationOptions)
  {
  }

  lemma ProductOptionsClosed()
    ensures |ProductOptions| == 33 && Distinct(ProductOptions)
  {
  }

  /** Every product reference is a non-empty string of at most ten digits. */
  lemma ProductRefsAreDigits()
    ensures forall i | 0 <= i < |ProductOptions| :: 0 < |ProductOptions[i]| <= 10 && AllDigits(ProductOptions[i])
  {
  }

  /** So `int(product_ref)` (cop_mod.py lines 123 and 178) cannot fail on a
      selected product reference. */
  lemma ProductRefConverts(i: nat)
    requires i < |ProductOptions|
    ensures ToInt(ProductOptions[i]).Some?
    ensures ToInt(ProductOptions[i]).value == DigitsValue(ProductOptions[i])
  {
    ProductRefsAreDigits();
    DigitsConvert(ProductOptions[i]);
  }
}
