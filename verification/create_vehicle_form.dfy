/** The submit logic of `src/components/vehicle/CreateVehicleForm.tsx`: the
    required-field check and the record handed to `onSubmit`.

    The form's selects carry upper-case codes ("CAR", "SMALL"), while
    `VehicleFormData` declares lower-case ones; the upper-case strings are
    passed through unchanged, so the submitted record does not parse as a
    vehicle type or size of the records. */
module CreateVehicleForm {
  import opened Wrappers
  import opened AsciiText
  import opened ParkingTypes
  import Toasts

  /** The upper-case code a select item carries. */
  function FormTypeCode(t: VehicleType): (r: string)
    ensures r == Upper(VehicleTypeCode(t))
  {
    match t
    case Car => "CAR"
    case Motorcycle => "MOTORCYCLE"
    case Truck => "TRUCK"
  }

  function FormSizeCode(z: VehicleSize): (r: string)
    ensures r == Upper(VehicleSizeCode(z))
  {
    match z
    case Small => "SMALL"
    case Medium => "MEDIUM"
    case Large => "LARGE"
  }

  /** The form's fields; an unselected select is `None`. */
  datatype Fields = Fields(
    plateNumber: string,
    vehicleType: Option<VehicleType>,
    size: Option<VehicleSize>,
    color: string,
    model: string)

  const BLANK := Fields("", None, None, "", "")

  /** What `onSubmit` receives: both attributes are always present, possibly
      empty. */
  datatype VehicleFormData = VehicleFormData(
    plateNumber: string,
    vehicleType: string,
    size: string,
    color: string,
    model: string)

  datatype Submission = Invalid(notice: Toasts.Notice) | Submitted(data: VehicleFormData)

  const VALIDATION_ERROR := Toasts.Notice("Validation Error", "Please fill in all required fields.", true)

  /** `handleSubmit`: a plate, a type and a size are required; color and model
      are not. */
  function HandleSubmit(f: Fields): (r: Submission)
    ensures r.Invalid? <==> f.plateNumber == "" || f.vehicleType.None? || f.size.None?
    ensures r.Invalid? ==> r.notice == VALIDATION_ERROR
    ensures r.Submitted? ==>
      && r.data.plateNumber == f.plateNumber
      && r.data.vehicleType == FormTypeCode(f.vehicleType.value)
      && r.data.size == FormSizeCode(f.size.value)
      && r.data.color == f.color && r.data.model == f.model
  {
    if f.plateNumber == "" || f.vehicleType.None? || f.size.None? then Invalid(VALIDATION_ERROR)
    else Submitted(VehicleFormData(f.plateNumber, FormTypeCode(f.vehicleType.value),
                                   FormSizeCode(f.size.value), f.color, f.model))
  }

  /** A fresh form is always refused. */
  lemma BlankFormRefused()
    ensures HandleSubmit(BLANK) == Invalid(VALIDATION_ERROR)
  {
  }

  /** Lower-casing a select code gives back the record's code. */
  lemma LoweredFormCodes(t: VehicleType, z: VehicleSize)
    ensures Lower(FormTypeCode(t)) == VehicleTypeCode(t)
    ensures Lower(FormSizeCode(z)) == VehicleSizeCode(z)
  {
    LowerOfUpper(VehicleTypeCode(t));
    LowerOfLowercase(VehicleTypeCode(t));
    LowerOfUpper(VehicleSizeCode(z));
    LowerOfLowercase(VehicleSizeCode(z));
  }

  /** The submitted codes name the chosen type and size once lower-cased, and
      never as they stand. */
  lemma SubmittedCodesNeedLowering(f: Fields)
    requires HandleSubmit(f).Submitted?
    ensures var d := HandleSubmit(f).data;
      && ParseVehicleType(Lower(d.vehicleType)) == Some(f.vehicleType.value)
      && ParseVehicleSize(Lower(d.size)) == Some(f.size.value)
      && ParseVehicleType(d.vehicleType).None?
      && ParseVehicleSize(d.size).None?
  {
    LoweredFormCodes(f.vehicleType.value, f.size.value);
  }
}
