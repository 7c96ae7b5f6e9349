/** `dateToString(date)`: the date's ISO string cut to `YYYY-MM-DD HH:MM:SS`,
    that is `date.toISOString().substring(0, 19).replace('T', ' ')`. The clock
    and `toISOString` are outside the model: the function takes the ISO
    string. */
module DateFormat {
  import opened Wrappers
  import opened JsString
  import opened Js

  /** The shape `Date.prototype.toISOString` produces for years 0 to 9999:
      `YYYY-MM-DDTHH:mm:ss.sssZ`. */
  predicate IsIsoString(iso: string) {
    && |iso| == 24
    && (forall k :: k in {0, 1, 2, 3, 5, 6, 8, 9, 11, 12, 14, 15, 17, 18, 20, 21, 22} ==> IsDigit(iso[k]))
    && iso[4] == '-' && iso[7] == '-' && iso[10] == 'T'
    && iso[13] == ':' && iso[16] == ':' && iso[19] == '.' && iso[23] == 'Z'
  }

  function DateToString(iso: string): string {
    ReplaceFirst(Substring(iso, 0, 19), "T", " ")
  }

  /** On an ISO string the result has 19 characters: the date, a space where
      the 'T' was, and the time to the second; no other character changes and
      the milliseconds and the 'Z' are gone. */
  lemma DateToStringOfIso(iso: string)
    requires IsIsoString(iso)
    ensures |DateToString(iso)| == 19
    ensures DateToString(iso) == iso[..10] + " " + iso[11..19]
    ensures DateToString(iso)[10] == ' '
    ensures forall k :: 0 <= k < 19 && k != 10 ==> DateToString(iso)[k] == iso[k]
  {
    var cut := Substring(iso, 0, 19);
    assert cut == iso[..19];
    assert OccursAt(cut, "T", 10);
    forall j | 0 <= j < 10 ensures !OccursAt(cut, "T", j) {
      assert cut[j..j + 1] == [cut[j]];
      assert j in {0, 1, 2, 3, 5, 6, 8, 9} ==> IsDigit(iso[j]);
    }
    assert IndexOf(cut, "T") == Some(10);
    var r := DateToString(iso);
    assert r == cut[..10] + " " + cut[11..];
  }
}
