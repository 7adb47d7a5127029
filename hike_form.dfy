/**
 * The "new record" form (components/HikeForm.tsx): the form state, its
 * field-by-field updates, and the record built from it on submission.
 */
module HikeForm {
  import opened Wrappers
  import opened Strings
  import opened Numbers
  import opened Types

  /** `formData`: what the inputs currently hold, all as typed text except the status. */
  datatype FormData = FormData(
    mountainName: string,
    elevation: string,
    date: string,
    description: string,
    status: HikeStatus,
    lat: string,
    lng: string)

  /** `new Date().toISOString().split('T')[0]`: the calendar day of a timestamp. */
  function DatePart(isoTimestamp: string): (day: string)
    ensures 'T' !in day
    ensures |day| <= |isoTimestamp| && day == isoTimestamp[..|day|]
  {
    var parts := Split(isoTimestamp, 'T');
    JoinSplit(isoTimestamp, 'T');
    JoinPrefix(parts, 1, 'T');
    assert parts[..1] == [parts[0]];
    parts[0]
  }

  /** The day part of "YYYY-MM-DDThh:mm:ss.sssZ" is "YYYY-MM-DD". */
  lemma DatePartOfTimestamp(day: string, time: string)
    requires 'T' !in day
    ensures DatePart(day + "T" + time) == day
  {
    SplitAfterField(day, time, 'T');
  }

  /** The form as it opens; `now` is the current time in ISO format. */
  function InitialForm(now: string): (f: FormData)
    ensures f.mountainName == [] && f.elevation == [] && f.description == []
    ensures f.status == Completed
    ensures f.lat == "37.5" && f.lng == "127.0"
    ensures f.date == DatePart(now)
  {
    FormData("", "", DatePart(now), "", Completed, "37.5", "127.0")
  }

  /** `parseInt(text) || 0`: NaN (and 0) become 0. */
  function ElevationFromText(text: string): (e: int)
    ensures e == 0 <==> ParseInt(text) == None || ParseInt(text) == Some(0)
    ensures e != 0 ==> ParseInt(text) == Some(e)
  {
    match ParseInt(text)
    case Some(n) => n
    case None => 0
  }

  /** Typing a number's decimal form gives back that number. */
  lemma ElevationOfNumber(n: int)
    ensures ElevationFromText(ToDecimal(n)) == n
  {
    ParseIntOfDecimal(n, []);
    assert ToDecimal(n) + [] == ToDecimal(n);
  }

  /** Text with no digit in it (an empty field, say) gives 0. */
  lemma ElevationWithoutDigits(text: string)
    requires forall i :: 0 <= i < |text| ==> !IsDecimalDigit(text[i])
    ensures ElevationFromText(text) == 0
  {
    ParseIntWithoutDigits(text);
  }

  /**
   * `newRecord` in `handleSubmit`. `id` is `Date.now().toString()` and
   * `parseFloat` the built-in of that name; the model computes neither.
   */
  function BuildRecord(form: FormData, id: string, parseFloat: string -> real): (r: HikeRecord)
    ensures r.id == id
    ensures r.mountainName == form.mountainName && r.date == form.date
    ensures r.description == form.description && r.status == form.status
    ensures r.elevation == ElevationFromText(form.elevation)
    ensures r.coords == Coordinates(parseFloat(form.lat), parseFloat(form.lng))
    ensures r.rating == None
    ensures r.image == Some(PlaceholderImage(form.mountainName, "600", "400"))
  {
    HikeRecord(
      id,
      form.mountainName,
      ElevationFromText(form.elevation),
      form.date,
      form.description,
      form.status,
      Coordinates(parseFloat(form.lat), parseFloat(form.lng)),
      None,
      Some(PlaceholderImage(form.mountainName, "600", "400")))
  }

  /** A card for a form-built record shows the mountain's placeholder picture. */
  lemma BuiltRecordShowsPlaceholder(form: FormData, id: string, parseFloat: string -> real)
    ensures ImageOrPlaceholder(BuildRecord(form, id, parseFloat), "600", "400")
            == PlaceholderImage(form.mountainName, "600", "400")
  {
  }

  /** The form component and its `formData` state. */
  class HikeForm {
    var formData: FormData

    constructor (now: string)
      ensures formData == InitialForm(now)
    {
      formData := InitialForm(now);
    }

    method SetMountainName(value: string)
      modifies this
      ensures formData == old(formData).(mountainName := value)
    {
      formData := formData.(mountainName := value);
    }

    method SetElevation(value: string)
      modifies this
      ensures formData == old(formData).(elevation := value)
    {
      formData := formData.(elevation := value);
    }

    method SetDate(value: string)
      modifies this
      ensures formData == old(formData).(date := value)
    {
      formData := formData.(date := value);
    }

    method SetLat(value: string)
      modifies this
      ensures formData == old(formData).(lat := value)
    {
      formData := formData.(lat := value);
    }

    method SetLng(value: string)
      modifies this
      ensures formData == old(formData).(lng := value)
    {
      formData := formData.(lng := value);
    }

    method SetDescription(value: string)
      modifies this
      ensures formData == old(formData).(description := value)
    {
      formData := formData.(description := value);
    }

    /** The "climbed" button. */
    method ChooseCompleted()
      modifies this
      ensures formData == old(formData).(status := Completed)
    {
      formData := formData.(status := Completed);
    }

    /** The "wish list" button. */
    method ChooseWish()
      modifies this
      ensures formData == old(formData).(status := Wish)
    {
      formData := formData.(status := Wish);
    }

    /**
     * Pressing "save": the browser refuses to submit while the required
     * mountain name is empty; otherwise `handleSubmit` builds the record.
     */
    method Submit(id: string, parseFloat: string -> real) returns (record: Option<HikeRecord>)
      ensures formData.mountainName == [] ==> record == None
      ensures formData.mountainName != [] ==> record == Some(BuildRecord(formData, id, parseFloat))
    {
      if formData.mountainName == [] {
        record := None;
      } else {
        record := Some(BuildRecord(formData, id, parseFloat));
      }
    }
  }
}
