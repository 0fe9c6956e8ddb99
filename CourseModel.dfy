/** The course document of src/Models/Course-Model/Course-model.js: the closed
    enumerations of the schema, the `price` and `emi` sub-documents with their
    defaults and bounds, and the pre-save hook that derives `finalPrice`. */
module CourseModel {
  import opened Common

  // ---------------------------------------------------------------------
  // Closed enumerations and their stored labels
  // ---------------------------------------------------------------------

  datatype CourseDuration = SixMonths | OneYear | TwoYears

  function DurationLabel(d: CourseDuration): string
  {
    match d
    case SixMonths => "6 months"
    case OneYear => "1 year"
    case TwoYears => "2 years"
  }

  /** The `enum` validator of `courseduration`: exactly the three labels are
      accepted, and each is read back as the value it labels. */
  function ParseDuration(s: string): (r: Option<CourseDuration>)
    ensures r.Some? <==> s == "6 months" || s == "1 year" || s == "2 years"
    ensures r.Some? ==> DurationLabel(r.value) == s
  {
    if s == "6 months" then Some(SixMonths)
    else if s == "1 year" then Some(OneYear)
    else if s == "2 years" then Some(TwoYears)
    else None
  }

  datatype Level = Beginner | Medium | Hard

  function LevelLabel(l: Level): string
  {
    match l
    case Beginner => "beginner"
    case Medium => "medium"
    case Hard => "hard"
  }

  function ParseLevel(s: string): (r: Option<Level>)
    ensures r.Some? <==> s == "beginner" || s == "medium" || s == "hard"
    ensures r.Some? ==> LevelLabel(r.value) == s
  {
    if s == "beginner" then Some(Beginner)
    else if s == "medium" then Some(Medium)
    else if s == "hard" then Some(Hard)
    else None
  }

  datatype Language = English | Tamil

  function LanguageLabel(l: Language): string
  {
    match l
    case English => "english"
    case Tamil => "tamil"
  }

  function ParseLanguage(s: string): (r: Option<Language>)
    ensures r.Some? <==> s == "english" || s == "tamil"
    ensures r.Some? ==> LanguageLabel(r.value) == s
  {
    if s == "english" then Some(English)
    else if s == "tamil" then Some(Tamil)
    else None
  }

  datatype Certificates = Yes | No

  function CertificatesLabel(c: Certificates): string
  {
    match c
    case Yes => "yes"
    case No => "no"
  }

  function ParseCertificates(s: string): (r: Option<Certificates>)
    ensures r.Some? <==> s == "yes" || s == "no"
    ensures r.Some? ==> CertificatesLabel(r.value) == s
  {
    if s == "yes" then Some(Yes)
    else if s == "no" then Some(No)
    else None
  }

  /** Every stored label parses back to the value it came from. */
  lemma LabelsRoundTrip(d: CourseDuration, l: Level, g: Language, c: Certificates)
    ensures ParseDuration(DurationLabel(d)) == Some(d)
    ensures ParseLevel(LevelLabel(l)) == Some(l)
    ensures ParseLanguage(LanguageLabel(g)) == Some(g)
    ensures ParseCertificates(CertificatesLabel(c)) == Some(c)
  {
  }

  // ---------------------------------------------------------------------
  // Sub-documents
  // ---------------------------------------------------------------------

  /** `price`: amount is required, currency defaults to "INR", discount
      defaults to 0 and must lie in [0, 100], finalPrice is derived. */
  datatype Price = Price(amount: real, currency: string, discount: real, finalPrice: Option<real>)

  /** `emi`: whether instalments are offered and the admin's terms. */
  datatype EmiConfig = EmiConfig(
    isAvailable: bool,
    emiDurationMonths: Option<real>,
    monthlyAmount: Option<real>,
    totalAmount: Option<real>,
    notes: Option<string>)

  datatype Course = Course(
    motherId: string,
    name: string,
    category: string,
    duration: CourseDuration,
    price: Price,
    emi: Option<EmiConfig>,
    level: Level,
    language: Language,
    certificates: Certificates,
    rating: Option<real>,
    studentEnrollmentCount: int)

  /** A `price` given only its amount, all other fields at their defaults. */
  function DefaultPrice(amount: real): (p: Price)
    ensures p.amount == amount && p.currency == "INR" && p.discount == 0.0
    ensures p.finalPrice.None?
  {
    Price(amount, "INR", 0.0, None)
  }

  /** An `emi` sub-document with nothing set. */
  function DefaultEmiConfig(): (e: EmiConfig)
    ensures !e.isAvailable && e.emiDurationMonths.None?
  {
    EmiConfig(false, None, None, None, None)
  }

  /** A new course with every defaulted field at its default. */
  function NewCourse(motherId: string, name: string, category: string, duration: CourseDuration,
                     amount: real, level: Level, language: Language,
                     certificates: Certificates): (c: Course)
    ensures c.price == DefaultPrice(amount)
    ensures c.studentEnrollmentCount == 0
    ensures c.emi.None? && c.rating.None?
  {
    Course(motherId, name, category, duration, DefaultPrice(amount), None, level, language,
           certificates, None, 0)
  }

  /** The validators of the schema: `required` on the string fields, which
      rejects the empty string (a missing value is modelled as the empty
      string), and the `min`/`max` bounds. The enumerations are enforced by
      the types. */
  predicate SchemaValid(c: Course)
  {
    c.motherId != "" && c.name != "" && c.category != "" && c.price.currency != "" &&
    0.0 <= c.price.discount <= 100.0 &&
    (c.rating.Some? ==> 0.0 <= c.rating.value <= 5.0)
  }

  // ---------------------------------------------------------------------
  // The derived final price
  // ---------------------------------------------------------------------

  /** `amount * (1 - discount / 100)`, on exact reals. */
  function DiscountedPrice(amount: real, discount: real): real
  {
    amount * (1.0 - discount / 100.0)
  }

  /** Within the schema's bounds the final price lies between 0 and the list
      price; no discount keeps the price and a full discount makes it free. */
  lemma DiscountedPriceBounds(amount: real, discount: real)
    requires amount >= 0.0 && 0.0 <= discount <= 100.0
    ensures 0.0 <= DiscountedPrice(amount, discount) <= amount
    ensures discount == 0.0 ==> DiscountedPrice(amount, discount) == amount
    ensures discount == 100.0 ==> DiscountedPrice(amount, discount) == 0.0
  {
    var f := 1.0 - discount / 100.0;
    assert 0.0 <= f <= 1.0;
    assert amount * f <= amount * 1.0 by {
      assert amount * (1.0 - f) >= 0.0;
    }
  }

  /** A larger discount never raises the final price. */
  lemma DiscountedPriceAntitone(amount: real, d1: real, d2: real)
    requires amount >= 0.0 && d1 <= d2
    ensures DiscountedPrice(amount, d2) <= DiscountedPrice(amount, d1)
  {
    assert DiscountedPrice(amount, d1) - DiscountedPrice(amount, d2) == amount * ((d2 - d1) / 100.0);
  }

  /** Mongoose's `isModified(path)`: a modified path equal to `path`, inside it,
      or enclosing it. */
  predicate IsModified(modified: set<string>, path: string)
  {
    exists p :: p in modified && (p == path || IsPathPrefix(p, path) || IsPathPrefix(path, p))
  }

  /** `a` names a sub-document that contains path `b`. */
  predicate IsPathPrefix(a: string, b: string)
  {
    |a| < |b| && b[..|a|] == a && b[|a|] == '.'
  }

  /** The top-level paths of a course, all of which are new on a document that
      has never been saved. */
  const CoursePaths: set<string> :=
    {"CourseMotherId", "coursename", "category", "courseduration", "price", "emi",
     "level", "language", "certificates", "rating", "studentEnrollmentCount"}

  /** A course document loaded into memory, with the set of paths changed since
      it was loaded. */
  class CourseDocument {
    var course: Course
    var modifiedPaths: set<string>

    /** `new Course({...})`: every path counts as modified. */
    constructor Create(c: Course)
      ensures course == c && modifiedPaths == CoursePaths
    {
      course := c;
      modifiedPaths := CoursePaths;
    }

    /** An assignment `doc.price.<field> = v`. */
    method SetPrice(p: Price, field: string)
      modifies this
      ensures course == old(course).(price := p)
      ensures modifiedPaths == old(modifiedPaths) + {"price." + field}
    {
      course := course.(price := p);
      modifiedPaths := modifiedPaths + {"price." + field};
    }

    /** The pre-save hook (Course-model.js:106-111): when the amount or the
        discount changed, finalPrice is recomputed from them; otherwise the
        document is left exactly as it was. */
    method PreSave()
      modifies this
      ensures modifiedPaths == old(modifiedPaths)
      ensures IsModified(old(modifiedPaths), "price.amount") || IsModified(old(modifiedPaths), "price.discount") ==>
        course == old(course).(price := old(course.price).(finalPrice :=
          Some(DiscountedPrice(old(course.price.amount), old(course.price.discount)))))
      ensures !IsModified(old(modifiedPaths), "price.amount") && !IsModified(old(modifiedPaths), "price.discount") ==>
        course == old(course)
    {
      if IsModified(modifiedPaths, "price.amount") || IsModified(modifiedPaths, "price.discount") {
        var p := course.price;
        course := course.(price := p.(finalPrice := Some(DiscountedPrice(p.amount, p.discount))));
      }
    }

    /** `doc.save()`: schema validation first, then the pre-save hook; a
        document that fails validation is not changed. */
    method Save() returns (ok: bool)
      modifies this
      ensures ok == SchemaValid(old(course))
      ensures !ok ==> course == old(course) && modifiedPaths == old(modifiedPaths)
      ensures ok ==> modifiedPaths == {}
      ensures ok && (IsModified(old(modifiedPaths), "price.amount") || IsModified(old(modifiedPaths), "price.discount")) ==>
        course == old(course).(price := old(course.price).(finalPrice :=
          Some(DiscountedPrice(old(course.price.amount), old(course.price.discount)))))
      ensures ok && !IsModified(old(modifiedPaths), "price.amount") && !IsModified(old(modifiedPaths), "price.discount") ==>
        course == old(course)
    {
      ok := SchemaValid(course);
      if ok {
        PreSave();
        modifiedPaths := {};
      }
    }
  }

  /** A freshly created course always has "price" among its new paths, so its
      first save sets finalPrice. */
  lemma NewDocumentPriceIsModified()
    ensures IsModified(CoursePaths, "price.amount")
  {
    assert IsPathPrefix("price", "price.amount");
  }

  /** Creating and saving a course stores the discounted price as its final
      price; the schema sets no minimum on the amount, so the bound between 0
      and the list price holds for a non-negative amount. */
  method CreateCourse(c: Course) returns (doc: CourseDocument, ok: bool)
    ensures fresh(doc)
    ensures ok == SchemaValid(c)
    ensures ok ==> doc.course == c.(price := c.price.(finalPrice := Some(DiscountedPrice(c.price.amount, c.price.discount))))
    ensures ok && c.price.amount >= 0.0 ==> 0.0 <= doc.course.price.finalPrice.value <= c.price.amount
  {
    doc := new CourseDocument.Create(c);
    NewDocumentPriceIsModified();
    ok := doc.Save();
    if ok && c.price.amount >= 0.0 {
      DiscountedPriceBounds(c.price.amount, c.price.discount);
    }
  }
}
