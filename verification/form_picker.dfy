/** The click handler of the board-image picker: remember the choice, emit the encoded value. */
module FormPicker {
  import opened Wrappers
  import opened ImageField

  /** The picker's local state (`selectedImageId`). */
  datatype Picker = Picker(selectedImageId: Option<string>)

  /** The state after a click and the value passed to the form's `onClick`. */
  datatype Pick = Pick(picker: Picker, emitted: string)

  function OnPick(p: Picker, img: Image): (r: Pick)
    ensures r.picker.selectedImageId == Some(img.id)
    ensures r.emitted == Join(Fields(img))
    ensures WellFormed(img) ==> Parse(r.emitted) == Ok(img)
  {
    EncodeIsJoin(img);
    assert WellFormed(img) ==> Parse(Encode(img)) == Ok(img) by {
      if WellFormed(img) { ParseEncode(img); }
    }
    Pick(Picker(Some(img.id)), Encode(img))
  }
}
