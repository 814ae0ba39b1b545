/** `ConnectionStringExtensions.ExtractValue`: reading one `key=value`
    field out of an IoT Hub connection string such as
    "HostName=h;DeviceId=d;SharedAccessKey=k". */
module ConnectionStrings {
  import opened Outcomes
  import opened Text

  /** ExtractValue(data, key). The search window is the text from the first
      `key=` up to, but excluding, the input's last character; the value is
      what lies between `key=` and the first ';' of that window, and "" when
      the window holds no ';'. `Remove(0, |key| + 1)` throws when the ';'
      comes before the end of `key=`, which happens only for a key that
      itself contains ';'. */
  function ExtractValue(data: string, key: string): (r: Result<string>)
    ensures |data| == 0 ==> r == Success("")
    ensures IndexOf(data, key + "=").None? ==> r == Success("")
    ensures ';' !in key ==> r.Success?
    ensures r.Success? ==> ';' !in r.value
    ensures r.Success? && |r.value| > 0 ==>
              IndexOf(data, key + "=").Some? &&
              OccursAt(data, key + "=" + r.value + ";", IndexOf(data, key + "=").value)
  {
    if |data| == 0 then Success("")
    else
      match IndexOf(data, key + "=")
      case None => Success("")
      case Some(start) =>
        var window := data[start..|data| - 1];
        match IndexOf(window, ";")
        case None => Success("")
        case Some(end) =>
          if end < |key| + 1 then
            KeySeparatorInKey(data, key, start, end);
            Failure(ArgumentOutOfRange("count"))
          else
            ValueLayout(data, key, start, end);
            Success(window[|key| + 1..end])
  }

  /** The search window begins with `key=` (less its '=' when `key=` ends
      the input), so a ';' inside it before the value means ';' is in `key`. */
  lemma KeySeparatorInKey(data: string, key: string, start: nat, end: nat)
    requires OccursAt(data, key + "=", start)
    requires end < |key| + 1 && OccursAt(data[start..|data| - 1], ";", end)
    ensures ';' in key
  {
    var window := data[start..|data| - 1];
    OccursAtChar(window, ';', end);
    assert window[end] == data[start + end] == (key + "=")[end];
    if end < |key| {
      assert key[end] == ';';
    }
  }

  /** The text from `key=` through the first ';' of the window is
      `key=`, a value without ';', and that ';'. */
  lemma ValueLayout(data: string, key: string, start: nat, end: nat)
    requires OccursAt(data, key + "=", start)
    requires |key| + 1 <= end
    requires IndexOf(data[start..|data| - 1], ";") == Some(end)
    ensures var value := data[start..|data| - 1][|key| + 1..end];
            ';' !in value && OccursAt(data, key + "=" + value + ";", start)
  {
    var window := data[start..|data| - 1];
    var value := window[|key| + 1..end];
    forall i | 0 <= i < |value| ensures value[i] != ';' {
      OccursAtChar(window, ';', |key| + 1 + i);
    }
    OccursAtChar(window, ';', end);
    assert window[..end + 1] == window[..|key| + 1] + value + ";";
    assert window[..|key| + 1] == data[start..start + |key| + 1];
    assert data[start..start + end + 1] == window[..end + 1];
  }

  /** Round trip: a field `key=v;` found at its first occurrence and
      followed by at least one more character yields exactly `v`. */
  lemma ExtractRoundTrip(p: string, key: string, v: string, rest: string)
    requires ';' !in key && ';' !in v && |rest| > 0
    requires forall j: nat :: j < |p| ==> !OccursAt(p + key + "=" + v + ";" + rest, key + "=", j)
    ensures ExtractValue(p + key + "=" + v + ";" + rest, key) == Success(v)
  {
    var data := p + key + "=" + v + ";" + rest;
    var pat := key + "=";
    assert data[|p|..|p| + |pat|] == pat;
    FirstOccurrence(data, pat, |p|);
    var window := data[|p|..|data| - 1];
    var end := |key| + 1 + |v|;
    assert window[end] == ';';
    OccursAtChar(window, ';', end);
    forall j: nat | j < end ensures !OccursAt(window, ";", j) {
      OccursAtChar(window, ';', j);
      if j < |key| {
        assert window[j] == key[j];
      } else if j > |key| {
        assert window[j] == v[j - |key| - 1];
      }
    }
    FirstOccurrence(window, ";", end);
    forall i | 0 <= i < |v| ensures window[|key| + 1 + i] == v[i] {
      assert window[|key| + 1 + i] == data[|p| + |key| + 1 + i];
    }
    assert window[|key| + 1..end] == v;
  }

  /** The input's last character is never examined: a final field with no
      ';' after it, or whose ';' is the last character, yields "". */
  lemma FinalFieldIsEmpty(p: string, key: string, v: string, terminator: string)
    requires ';' !in key && ';' !in v && (terminator == "" || terminator == ";")
    requires forall j: nat :: j < |p| ==> !OccursAt(p + key + "=" + v + terminator, key + "=", j)
    ensures ExtractValue(p + key + "=" + v + terminator, key) == Success("")
  {
    var data := p + key + "=" + v + terminator;
    var pat := key + "=";
    assert data[|p|..|p| + |pat|] == pat;
    FirstOccurrence(data, pat, |p|);
    var window := data[|p|..|data| - 1];
    forall j: nat ensures !OccursAt(window, ";", j) {
      OccursAtChar(window, ';', j);
      if j < |key| {
        assert window[j] == key[j];
      } else if |key| < j < |window| {
        assert window[j] == v[j - |key| - 1];
      }
    }
  }

  /** The key is matched as a plain substring at its first occurrence, so
      the key "Id" is found inside "DeviceId=". */
  lemma KeyMatchedInsideLongerName()
    ensures ExtractValue("DeviceId=d1;Id=x;", "Id") == Success("d1")
  {
    var data := "Device" + "Id" + "=" + "d1" + ";" + "Id=x;";
    assert data == "DeviceId=d1;Id=x;";
    assert "Id" + "=" == "Id=";
    forall j: nat | j < 6 ensures !OccursAt(data, "Id" + "=", j) {
      assert data[j] != 'I';
    }
    ExtractRoundTrip("Device", "Id", "d1", "Id=x;");
  }
}
