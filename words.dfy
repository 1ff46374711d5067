/** The word table: the closed vocabulary of spoken words, the tagged
    function each word denotes and the mana each word costs. */
module WordTable {

  import opened Basics

  /** The 27 spoken words, in declaration order. */
  datatype Word =
    // Numbers
    | Ti | Tu | Ta | Te
    // Scalars
    | Seva | Sevi | Me
    // Vectors
    | Kova | Kovi
    // Inputs
    | Le | Po | Lusa | Mesi
    // Outputs
    | Ke
    // Operators
    | Ma | Sa | Na | Reso | Solo
    // Controls
    | Sila | Vila | Pa | Pi
    // Combinators
    | No | Mo | Re | Rovo

  // The operation enums, restricted to the variants the word table names.
  datatype Nullary = One | Two | Five | Ten | OneX | OneY | X | Y | Filter | TargetX | TargetY
  datatype ScalarInputFieldKind = Elevation | Density | Light | Magic
  datatype VectorOutputFieldKind = Gravity
  datatype HomoBinOp = Add
  datatype HeteroBinOp = Mul
  datatype MathUnOp = Neg
  datatype ToScalarOp = Magnitude
  datatype ScalarUnOp = Reciprocal
  datatype Combinator1 = Drop | Duplicate
  datatype Combinator2 = Swap | Over
  datatype ControlKind = XSlider | YSlider

  /** A tagged function; each variant is one `From` conversion into `Function`. */
  datatype Function =
    | NullaryFn(nullary: Nullary)
    | InputField(input: ScalarInputFieldKind)
    | OutputField(output: VectorOutputFieldKind)
    | HomoBin(homo: HomoBinOp)
    | HeteroBin(hetero: HeteroBinOp)
    | MathUn(math: MathUnOp)
    | ToScalar(toScalar: ToScalarOp)
    | ScalarUn(scalarUn: ScalarUnOp)
    | Comb1(c1: Combinator1)
    | Comb2(c2: Combinator2)
    | Control(control: ControlKind)

  /** Every word, in declaration order (what the derived `Sequence` enumerates). */
  const AllWords: seq<Word> :=
    [Ti, Tu, Ta, Te, Seva, Sevi, Me, Kova, Kovi, Le, Po, Lusa, Mesi, Ke,
     Ma, Sa, Na, Reso, Solo, Sila, Vila, Pa, Pi, No, Mo, Re, Rovo]

  /** The number words, smallest first. */
  const NumberWords: seq<Word> := [Ti, Tu, Ta, Te]

  /** The function a word denotes. */
  function FunctionOf(w: Word): (f: Function)
    ensures f.NullaryFn? <==> w in {Ti, Tu, Ta, Te, Kova, Kovi, Seva, Sevi, Me, Pa, Pi}
    ensures f.Control? <==> w in {Sila, Vila}
    ensures f.Comb1? || f.Comb2? <==> w in {No, Mo, Re, Rovo}
  {
    match w
    case Ti => NullaryFn(One)
    case Tu => NullaryFn(Two)
    case Ta => NullaryFn(Five)
    case Te => NullaryFn(Ten)
    case Kova => NullaryFn(OneX)
    case Kovi => NullaryFn(OneY)
    case Seva => NullaryFn(X)
    case Sevi => NullaryFn(Y)
    case Me => NullaryFn(Filter)
    case Le => InputField(Elevation)
    case Po => InputField(Density)
    case Lusa => InputField(Light)
    case Mesi => InputField(Magic)
    case Ke => OutputField(Gravity)
    case Ma => HomoBin(Add)
    case Sa => HeteroBin(Mul)
    case Na => MathUn(Neg)
    case Solo => ToScalar(Magnitude)
    case Reso => ScalarUn(Reciprocal)
    case No => Comb1(Drop)
    case Mo => Comb1(Duplicate)
    case Re => Comb2(Swap)
    case Rovo => Comb2(Over)
    case Sila => Control(XSlider)
    case Vila => Control(YSlider)
    case Pa => NullaryFn(TargetX)
    case Pi => NullaryFn(TargetY)
  }

  /** The word that denotes a function: the inverse of FunctionOf. */
  function WordFor(f: Function): (w: Word)
  {
    match f
    case NullaryFn(n) =>
      (match n
       case One => Ti case Two => Tu case Five => Ta case Ten => Te
       case OneX => Kova case OneY => Kovi case X => Seva case Y => Sevi
       case Filter => Me case TargetX => Pa case TargetY => Pi)
    case InputField(k) =>
      (match k case Elevation => Le case Density => Po case Light => Lusa case Magic => Mesi)
    case OutputField(Gravity) => Ke
    case HomoBin(Add) => Ma
    case HeteroBin(Mul) => Sa
    case MathUn(Neg) => Na
    case ToScalar(Magnitude) => Solo
    case ScalarUn(Reciprocal) => Reso
    case Comb1(c) => (match c case Drop => No case Duplicate => Mo)
    case Comb2(c) => (match c case Swap => Re case Over => Rovo)
    case Control(c) => (match c case XSlider => Sila case YSlider => Vila)
  }

  /** The mana a word costs. */
  function Cost(w: Word): (c: real)
    ensures 1.0 <= c <= 10.0
    ensures c == 10.0 <==> w == Te
    ensures c == 1.0 <==> w !in {Tu, Ta, Te, Sila, Vila, Pa, Pi}
  {
    match w
    case Ti => 1.0
    case Tu => 2.0
    case Ta => 5.0
    case Te => 10.0
    case Sila => 2.0
    case Vila => 2.0
    case Pa => 3.0
    case Pi => 3.0
    case _ => 1.0
  }

  /** The number a nullary constant pushes, for the four number constants. */
  function NumberValue(n: Nullary): Option<real>
  {
    match n
    case One => Some(1.0)
    case Two => Some(2.0)
    case Five => Some(5.0)
    case Ten => Some(10.0)
    case _ => None
  }

  /** A cost schedule stated on functions rather than words: a number costs
      what it pushes, a slider costs 2, a target coordinate 3, anything else 1. */
  function FunctionCost(f: Function): real
  {
    match f
    case NullaryFn(n) =>
      if NumberValue(n).Some? then NumberValue(n).value
      else if n == TargetX || n == TargetY then 3.0
      else 1.0
    case Control(_) => 2.0
    case _ => 1.0
  }

  /** FunctionOf and WordFor are mutually inverse: every word denotes exactly
      one function and no two words denote the same one. */
  lemma WordForFunctionOf(w: Word)
    ensures WordFor(FunctionOf(w)) == w
  {
  }

  lemma FunctionOfWordFor(f: Function)
    ensures FunctionOf(WordFor(f)) == f
  {
  }

  lemma FunctionOfInjective(a: Word, b: Word)
    ensures FunctionOf(a) == FunctionOf(b) <==> a == b
  {
  }

  /** AllWords lists every word exactly once. */
  lemma AllWordsEnumerates(w: Word)
    ensures w in AllWords
    ensures |AllWords| == 27
    ensures forall i, j :: 0 <= i < j < |AllWords| ==> AllWords[i] != AllWords[j]
  {
  }

  /** A number word pushes a number constant equal to its own cost, and the
      four number words push strictly ascending constants. */
  lemma NumberWordCost(w: Word)
    ensures w in NumberWords <==>
              FunctionOf(w).NullaryFn? && NumberValue(FunctionOf(w).nullary).Some?
    ensures w in NumberWords ==> NumberValue(FunctionOf(w).nullary) == Some(Cost(w))
  {
  }

  lemma NumberWordsAscending(i: nat, j: nat)
    requires i < j < |NumberWords|
    ensures NumberValue(FunctionOf(NumberWords[i]).nullary).value
            < NumberValue(FunctionOf(NumberWords[j]).nullary).value
  {
  }

  /** The cost of a word is fixed by the function it denotes. */
  lemma CostByFunction(w: Word)
    ensures Cost(w) == FunctionCost(FunctionOf(w))
  {
  }

  /** The combinator words map one-to-one onto the four combinators. */
  lemma CombinatorWords()
    ensures FunctionOf(No) == Comb1(Drop) && FunctionOf(Mo) == Comb1(Duplicate)
    ensures FunctionOf(Re) == Comb2(Swap) && FunctionOf(Rovo) == Comb2(Over)
    ensures forall c :: WordFor(Comb1(c)) in {No, Mo}
    ensures forall c :: WordFor(Comb2(c)) in {Re, Rovo}
  {
  }
}
