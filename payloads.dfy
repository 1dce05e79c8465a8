/**
 * The two request bodies the loader posts: `create_student_payload` and
 * `create_student_school_association_payload` (poc/before/load_students.py).
 */
module Payloads {
  import opened Wrappers
  import opened StudentRecords

  /** The JSON member names the two payloads use. */
  datatype Field =
    | StudentUniqueId | BirthDate | FirstName | LastSurName
    | MiddleName | PersonalTitlePrefix | PreferredFirstName | PreferredLastSurname
    | StudentReference | SchoolReference | SchoolId
    | EntryDate | EntryGradeLevelDescriptor | FullTimeEquivalency
  {
    /** The member name as it appears in the JSON body. */
    function Name(): string
    {
      match this
      case StudentUniqueId => "studentUniqueId"
      case BirthDate => "birthDate"
      case FirstName => "firstName"
      case LastSurName => "lastSurName"
      case MiddleName => "middleName"
      case PersonalTitlePrefix => "personalTitlePrefix"
      case PreferredFirstName => "preferredFirstName"
      case PreferredLastSurname => "preferredLastSurname"
      case StudentReference => "studentReference"
      case SchoolReference => "schoolReference"
      case SchoolId => "schoolId"
      case EntryDate => "entryDate"
      case EntryGradeLevelDescriptor => "entryGradeLevelDescriptor"
      case FullTimeEquivalency => "fullTimeEquivalency"
    }
  }

  /** The field a JSON member name denotes, if it is one of the payloads' names. */
  function ParseField(name: string): Option<Field>
  {
    if name == "studentUniqueId" then Some(StudentUniqueId)
    else if name == "birthDate" then Some(BirthDate)
    else if name == "firstName" then Some(FirstName)
    else if name == "lastSurName" then Some(LastSurName)
    else if name == "middleName" then Some(MiddleName)
    else if name == "personalTitlePrefix" then Some(PersonalTitlePrefix)
    else if name == "preferredFirstName" then Some(PreferredFirstName)
    else if name == "preferredLastSurname" then Some(PreferredLastSurname)
    else if name == "studentReference" then Some(StudentReference)
    else if name == "schoolReference" then Some(SchoolReference)
    else if name == "schoolId" then Some(SchoolId)
    else if name == "entryDate" then Some(EntryDate)
    else if name == "entryGradeLevelDescriptor" then Some(EntryGradeLevelDescriptor)
    else if name == "fullTimeEquivalency" then Some(FullTimeEquivalency)
    else None
  }

  /** Each field's name parses back to that field, so no two fields share a name. */
  lemma FieldNameRoundTrip(f: Field, g: Field)
    ensures ParseField(f.Name()) == Some(f)
    ensures f.Name() == g.Name() ==> f == g
  {
    ParseFieldName(f);
    ParseFieldName(g);
  }

  lemma ParseFieldName(f: Field)
    ensures ParseField(f.Name()) == Some(f)
  {
    match f
    case StudentUniqueId =>
    case BirthDate =>
    case FirstName => assert "firstName"[0] != "birthDate"[0];
    case LastSurName =>
    case MiddleName =>
    case PersonalTitlePrefix =>
    case PreferredFirstName =>
    case PreferredLastSurname =>
    case StudentReference =>
      assert "studentReference"[7] != "studentUniqueId"[7];
    case SchoolReference =>
    case SchoolId =>
    case EntryDate =>
    case EntryGradeLevelDescriptor =>
    case FullTimeEquivalency =>
  }

  /** The JSON values the payloads are built from. */
  datatype Json =
    | JString(text: string)
    | JInt(integer: int)
    | JFloat(number: real)
    | JObject(members: map<Field, Json>)

  /** A request body: a JSON object. */
  type Payload = map<Field, Json>

  /** Python truthiness of an optional string: present and not empty. */
  predicate NonEmpty(o: Option<string>)
  {
    o.Some? && o.value != ""
  }

  /** The number of optional name fields that are non-empty. */
  function NonEmptyOptionalCount(s: StudentRecord): (n: nat)
    ensures n <= 4
  {
    (if NonEmpty(s.middleName) then 1 else 0) + (if NonEmpty(s.title) then 1 else 0)
    + (if NonEmpty(s.preferredFirstName) then 1 else 0) + (if NonEmpty(s.preferredLastName) then 1 else 0)
  }

  /** `m` with `key` inserted when the optional field is non-empty (`if field: m[key] = field`). */
  function WithOptional(m: Payload, key: Field, o: Option<string>): Payload
  {
    if NonEmpty(o) then m[key := JString(o.value)] else m
  }

  const RequiredStudentKeys: set<Field> := {StudentUniqueId, BirthDate, FirstName, LastSurName}
  const OptionalStudentKeys: set<Field> := {MiddleName, PersonalTitlePrefix, PreferredFirstName, PreferredLastSurname}

  /** The four entries every student body starts with. */
  function RequiredStudentEntries(s: StudentRecord): (p: Payload)
  {
    map[StudentUniqueId := JString(s.uniqueId), BirthDate := JString(s.birthDate),
        FirstName := JString(s.firstName), LastSurName := JString(s.lastName)]
  }

  /** The body posted to `/ed-fi/students`. */
  function StudentPayload(s: StudentRecord): Payload
  {
    var m0 := RequiredStudentEntries(s);
    var m1 := WithOptional(m0, MiddleName, s.middleName);
    var m2 := WithOptional(m1, PersonalTitlePrefix, s.title);
    var m3 := WithOptional(m2, PreferredFirstName, s.preferredFirstName);
    WithOptional(m3, PreferredLastSurname, s.preferredLastName)
  }

  /**
   * The student body carries the four identifying fields under their
   * renamed keys, each optional name only when it is non-empty, and no other key.
   */
  lemma StudentPayloadFields(s: StudentRecord)
    ensures var p := StudentPayload(s);
      && RequiredStudentKeys <= p.Keys <= RequiredStudentKeys + OptionalStudentKeys
      && p[StudentUniqueId] == JString(s.uniqueId)
      && p[BirthDate] == JString(s.birthDate)
      && p[FirstName] == JString(s.firstName)
      && p[LastSurName] == JString(s.lastName)
    ensures var p := StudentPayload(s);
      && (MiddleName in p <==> NonEmpty(s.middleName))
      && (PersonalTitlePrefix in p <==> NonEmpty(s.title))
      && (PreferredFirstName in p <==> NonEmpty(s.preferredFirstName))
      && (PreferredLastSurname in p <==> NonEmpty(s.preferredLastName))
    ensures var p := StudentPayload(s);
      && (MiddleName in p ==> p[MiddleName] == JString(s.middleName.value))
      && (PersonalTitlePrefix in p ==> p[PersonalTitlePrefix] == JString(s.title.value))
      && (PreferredFirstName in p ==> p[PreferredFirstName] == JString(s.preferredFirstName.value))
      && (PreferredLastSurname in p ==> p[PreferredLastSurname] == JString(s.preferredLastName.value))
  {
  }

  /** The student body has four keys plus one per non-empty optional name. */
  lemma {:induction false} StudentPayloadSize(s: StudentRecord)
    ensures |StudentPayload(s)| == 4 + NonEmptyOptionalCount(s)
    ensures 4 <= |StudentPayload(s)| <= 8
  {
    var m0 := RequiredStudentEntries(s);
    var m1 := WithOptional(m0, MiddleName, s.middleName);
    var m2 := WithOptional(m1, PersonalTitlePrefix, s.title);
    var m3 := WithOptional(m2, PreferredFirstName, s.preferredFirstName);
    assert m0.Keys == RequiredStudentKeys && |m0| == 4;
    assert MiddleName !in m0 && |m1| == |m0| + (if NonEmpty(s.middleName) then 1 else 0);
    assert PersonalTitlePrefix !in m1 && |m2| == |m1| + (if NonEmpty(s.title) then 1 else 0);
    assert PreferredFirstName !in m2 && |m3| == |m2| + (if NonEmpty(s.preferredFirstName) then 1 else 0);
    assert PreferredLastSurname !in m3;
  }

  /** The record built by the smoke script: middle name and title only, so six keys. */
  lemma SampleStudentPayloadSize()
    ensures |StudentPayload(StudentRecord(
      "604835", "2016-09-29", "Diana", "Holt", Some("Emily"), Some("Ms"), None, None,
      "2021-08-23", "Ninth grade", "1"))| == 6
  {
    StudentPayloadSize(StudentRecord(
      "604835", "2016-09-29", "Diana", "Holt", Some("Emily"), Some("Ms"), None, None,
      "2021-08-23", "Ninth grade", "1"));
  }

  /**
   * `create_student_payload` as written: start from the four required keys,
   * then insert each optional key in place when its field is non-empty.
   */
  method BuildStudentPayload(s: StudentRecord) returns (payload: Payload)
    ensures payload == StudentPayload(s)
  {
    payload := map[
      StudentUniqueId := JString(s.uniqueId),
      BirthDate := JString(s.birthDate),
      FirstName := JString(s.firstName),
      LastSurName := JString(s.lastName)];
    assert payload == RequiredStudentEntries(s);
    if NonEmpty(s.middleName) {
      payload := payload[MiddleName := JString(s.middleName.value)];
    }
    if NonEmpty(s.title) {
      payload := payload[PersonalTitlePrefix := JString(s.title.value)];
    }
    if NonEmpty(s.preferredFirstName) {
      payload := payload[PreferredFirstName := JString(s.preferredFirstName.value)];
    }
    if NonEmpty(s.preferredLastName) {
      payload := payload[PreferredLastSurname := JString(s.preferredLastName.value)];
    }
  }

  /**
   * The number conversions `float(...)` and `int(...)`, which the model does not
   * see into; `None` stands for the `ValueError` they raise on bad text.
   */
  datatype Conversions = Conversions(toFloat: string -> Option<real>, toInt: string -> Option<int>)

  /** The conversion that raised while building the association body. */
  datatype PayloadError = InvalidFullTime(fullTime: string) | InvalidSchoolId(schoolId: string)

  const GradeLevelDescriptorPrefix: string := "uri://ed-fi.org/GradeLevelDescriptor#"

  /** The grade-level descriptor URI for a grade level name. */
  function GradeLevelDescriptor(gradeLevel: string): (d: string)
    ensures |d| == |GradeLevelDescriptorPrefix| + |gradeLevel|
    ensures d[..|GradeLevelDescriptorPrefix|] == GradeLevelDescriptorPrefix
    ensures d[|GradeLevelDescriptorPrefix|..] == gradeLevel
  {
    GradeLevelDescriptorPrefix + gradeLevel
  }

  /** The grade level named by a descriptor URI, or `None` for a URI of another shape. */
  function DescriptorGradeLevel(d: string): (g: Option<string>)
  {
    if |GradeLevelDescriptorPrefix| <= |d| && d[..|GradeLevelDescriptorPrefix|] == GradeLevelDescriptorPrefix
    then Some(d[|GradeLevelDescriptorPrefix|..])
    else None
  }

  /** Reading the grade level back from a descriptor recovers it, and only descriptors read back. */
  lemma DescriptorRoundTrip(gradeLevel: string, d: string)
    ensures DescriptorGradeLevel(GradeLevelDescriptor(gradeLevel)) == Some(gradeLevel)
    ensures DescriptorGradeLevel(d) == Some(gradeLevel) <==> d == GradeLevelDescriptor(gradeLevel)
  {
    if DescriptorGradeLevel(d) == Some(gradeLevel) {
      assert d == d[..|GradeLevelDescriptorPrefix|] + d[|GradeLevelDescriptorPrefix|..];
    }
  }

  const AssociationKeys: set<Field> :=
    {StudentReference, SchoolReference, EntryDate, EntryGradeLevelDescriptor, FullTimeEquivalency}

  /** The body posted to `/ed-fi/studentSchoolAssociations`, or the conversion that raised. */
  function AssociationPayload(s: StudentRecord, schoolId: string, conv: Conversions): Result<Payload, PayloadError>
  {
    var descriptor := GradeLevelDescriptor(s.enrollmentGradeLevel);
    match conv.toFloat(s.fullTime)
    case None => Failure(InvalidFullTime(s.fullTime))
    case Some(fullTimeEquivalency) =>
      match conv.toInt(schoolId)
      case None => Failure(InvalidSchoolId(schoolId))
      case Some(id) =>
        Success(map[
          StudentReference := JObject(map[StudentUniqueId := JString(s.uniqueId)]),
          SchoolReference := JObject(map[SchoolId := JInt(id)]),
          EntryDate := JString(s.enrollmentDate),
          EntryGradeLevelDescriptor := JString(descriptor),
          FullTimeEquivalency := JFloat(fullTimeEquivalency)])
  }

  /**
   * The association body exists iff both conversions succeed; `fullTime` is
   * converted first, so its error is the one reported when both are bad.
   */
  lemma AssociationPayloadErrors(s: StudentRecord, schoolId: string, conv: Conversions)
    ensures var r := AssociationPayload(s, schoolId, conv);
      r.Success? <==> conv.toFloat(s.fullTime).Some? && conv.toInt(schoolId).Some?
    ensures conv.toFloat(s.fullTime).None? ==>
      AssociationPayload(s, schoolId, conv) == Failure(InvalidFullTime(s.fullTime))
    ensures conv.toFloat(s.fullTime).Some? && conv.toInt(schoolId).None? ==>
      AssociationPayload(s, schoolId, conv) == Failure(InvalidSchoolId(schoolId))
  {
  }

  /**
   * A built association body has exactly the five keys, references the
   * student by its unique id and the school by its converted id, and names
   * the grade level through its descriptor URI.
   */
  lemma AssociationPayloadShape(s: StudentRecord, schoolId: string, conv: Conversions)
    requires AssociationPayload(s, schoolId, conv).Success?
    ensures var p := AssociationPayload(s, schoolId, conv).value;
      && p.Keys == AssociationKeys
      && p[StudentReference] == JObject(map[StudentUniqueId := JString(s.uniqueId)])
      && p[SchoolReference] == JObject(map[SchoolId := JInt(conv.toInt(schoolId).value)])
      && p[EntryDate] == JString(s.enrollmentDate)
      && p[FullTimeEquivalency] == JFloat(conv.toFloat(s.fullTime).value)
    ensures var p := AssociationPayload(s, schoolId, conv).value;
      && p[EntryGradeLevelDescriptor] == JString(GradeLevelDescriptorPrefix + s.enrollmentGradeLevel)
      && DescriptorGradeLevel(p[EntryGradeLevelDescriptor].text) == Some(s.enrollmentGradeLevel)
  {
    DescriptorRoundTrip(s.enrollmentGradeLevel, GradeLevelDescriptor(s.enrollmentGradeLevel));
  }
}
