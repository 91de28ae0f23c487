/**
 * The query arguments: the reporting granularity, the exchange's
 * security-selection codes, and the two argument records.
 */
module Args {
  import opened Wrappers
  import opened Decimal
  import opened Calendar

  /** The reporting granularity. */
  datatype DateType = Day | Week | Month

  /** The security selections the per-security report accepts. */
  datatype IndustryType =
    | All
    | AllWithoutWarrantsAndCBBCs
    | ClosedEndFunds
    | ETF
    | ETN
    | BeneficialSecurities
    | SpecialStockWithOptions
    | CorporateBondsWithStockOptions
    | Warrants
    | Cement
    | Food
    | Plastic
    | TextileFiber
    | ElectricalMachinery
    | ElectricalCable
    | MedicalTechnology
    | Chemical
    | BiotechMedical
    | GlassCeramics
    | Paper
    | Metal
    | Rubber
    | Car
    | Electronics
    | Semiconductor
    | ComputerAndPeripheralEquipment
    | Optoelectronics
    | CommunicationNetwork
    | ElectronicComponents
    | ElectronicChannel
    | InformationService
    | OtherElectronics
    | BuildingMaterialsConstruction
    | Shipping
    | Tourism
    | FinancialInsurance
    | TradeDepartmentStore
    | OilAndElectricityAndGas
    | DepositoryReceipts
    | Comprehensive
    | Other
    | ConvertibleCorporateBonds
  {
    /** The exchange's code for this selection, sent as `selectType`. */
    function Value(): (code: string)
      ensures code != []
    {
      match this
      case All => "ALL"
      case AllWithoutWarrantsAndCBBCs => "ALLBUT0999"
      case ClosedEndFunds => "0049"
      case ETF => "ETF"
      case ETN => "ETN"
      case BeneficialSecurities => "019919T"
      case SpecialStockWithOptions => "0999GA"
      case CorporateBondsWithStockOptions => "0999GD"
      case Warrants => "0999G9"
      case Cement => "01"
      case Food => "02"
      case Plastic => "03"
      case TextileFiber => "04"
      case ElectricalMachinery => "05"
      case ElectricalCable => "06"
      case MedicalTechnology => "07"
      case Chemical => "21"
      case BiotechMedical => "22"
      case GlassCeramics => "08"
      case Paper => "09"
      case Metal => "10"
      case Rubber => "11"
      case Car => "12"
      case Electronics => "13"
      case Semiconductor => "24"
      case ComputerAndPeripheralEquipment => "25"
      case Optoelectronics => "26"
      case CommunicationNetwork => "27"
      case ElectronicComponents => "28"
      case ElectronicChannel => "29"
      case InformationService => "30"
      case OtherElectronics => "31"
      case BuildingMaterialsConstruction => "14"
      case Shipping => "15"
      case Tourism => "16"
      case FinancialInsurance => "17"
      case TradeDepartmentStore => "18"
      case OilAndElectricityAndGas => "23"
      case DepositoryReceipts => "9299"
      case Comprehensive => "19"
      case Other => "20"
      case ConvertibleCorporateBonds => "CB"
    }
  }

  /** The request reader for `selectType`: the selection a code names, the inverse of Value. */
  function FromCode(code: string): Option<IndustryType>
  {
    match code
    case "ALL" => Some(All)
    case "ALLBUT0999" => Some(AllWithoutWarrantsAndCBBCs)
    case "0049" => Some(ClosedEndFunds)
    case "ETF" => Some(ETF)
    case "ETN" => Some(ETN)
    case "019919T" => Some(BeneficialSecurities)
    case "0999GA" => Some(SpecialStockWithOptions)
    case "0999GD" => Some(CorporateBondsWithStockOptions)
    case "0999G9" => Some(Warrants)
    case "01" => Some(Cement)
    case "02" => Some(Food)
    case "03" => Some(Plastic)
    case "04" => Some(TextileFiber)
    case "05" => Some(ElectricalMachinery)
    case "06" => Some(ElectricalCable)
    case "07" => Some(MedicalTechnology)
    case "21" => Some(Chemical)
    case "22" => Some(BiotechMedical)
    case "08" => Some(GlassCeramics)
    case "09" => Some(Paper)
    case "10" => Some(Metal)
    case "11" => Some(Rubber)
    case "12" => Some(Car)
    case "13" => Some(Electronics)
    case "24" => Some(Semiconductor)
    case "25" => Some(ComputerAndPeripheralEquipment)
    case "26" => Some(Optoelectronics)
    case "27" => Some(CommunicationNetwork)
    case "28" => Some(ElectronicComponents)
    case "29" => Some(ElectronicChannel)
    case "30" => Some(InformationService)
    case "31" => Some(OtherElectronics)
    case "14" => Some(BuildingMaterialsConstruction)
    case "15" => Some(Shipping)
    case "16" => Some(Tourism)
    case "17" => Some(FinancialInsurance)
    case "18" => Some(TradeDepartmentStore)
    case "23" => Some(OilAndElectricityAndGas)
    case "9299" => Some(DepositoryReceipts)
    case "19" => Some(Comprehensive)
    case "20" => Some(Other)
    case "CB" => Some(ConvertibleCorporateBonds)
    case _ => None
  }

  /** A code reads back only as a selection that has that code. */
  lemma {:induction false} FromCodeSound(code: string)
    ensures FromCode(code).Some? ==> FromCode(code).value.Value() == code
  {
  }

  /** Every selection's code reads back as that selection. */
  lemma FromCodeValue(t: IndustryType)
    ensures FromCode(t.Value()) == Some(t)
  {
  }

  /** No two selections share a code. */
  lemma {:induction false} ValueInjective(a: IndustryType, b: IndustryType)
    ensures a.Value() == b.Value() ==> a == b
  {
    FromCodeValue(a);
    FromCodeValue(b);
  }

  predicate IsTwoDigitCode(code: string) {
    |code| == 2 && AllDigits(code)
  }

  /** Every two-digit code is an industry number from 01 to 31. */
  lemma {:induction false} TwoDigitCodesInRange(t: IndustryType)
    requires IsTwoDigitCode(t.Value())
    ensures 1 <= ValueOf(t.Value()) <= 31
    ensures t.Value() == FixedDigits(ValueOf(t.Value()), 2)
  {
    var code := t.Value();
    TwoDigitValue(code);
    IndustryNumberInRange(t);
    FixedDigitsOfValue(code);
  }

  lemma {:induction false} IndustryNumberInRange(t: IndustryType)
    requires IsTwoDigitCode(t.Value())
    ensures 1 <= 10 * DigitValue(t.Value()[0]) + DigitValue(t.Value()[1]) <= 31
  {
  }

  /** Every industry number from 01 to 31 is the code of some selection. */
  lemma {:induction false} EveryIndustryNumberUsed(n: nat)
    requires 1 <= n <= 31
    ensures FromCode(FixedDigits(n, 2)).Some?
  {
    var code := FixedDigits(n, 2);
    TwoFixedDigits(n);
    assert code == [DigitChar(n / 10), DigitChar(n % 10)];
  }

  lemma {:induction false} TwoDigitValue(s: string)
    requires IsTwoDigitCode(s)
    ensures ValueOf(s) == 10 * DigitValue(s[0]) + DigitValue(s[1])
  {
    var p := s[..1];
    assert ValueOf(s) == ValueOf(p) * 10 + DigitValue(s[1]);
    assert p[..0] == [] && p[0] == s[0];
    assert ValueOf(p) == DigitValue(s[0]);
  }

  lemma {:induction false} TwoFixedDigits(n: nat)
    requires n < 100
    ensures FixedDigits(n, 2) == [DigitChar(n / 10), DigitChar(n % 10)]
  {
    assert FixedDigits(n / 10, 1) == FixedDigits(n / 100, 0) + [DigitChar(n / 10 % 10)];
  }

  /** Arguments of the market-wide report. */
  datatype TotalInstitutionInvestorsArgs = TotalInstitutionInvestorsArgs(date: Date, dateType: DateType)

  /** Arguments of the per-security report. */
  datatype SingleStockInstitutionalInvestorsArgs =
    SingleStockInstitutionalInvestorsArgs(date: Date, dateType: DateType, industryType: IndustryType)
}
