/** The records and closed string unions of `src/types/vehicle.ts` and
    `src/types/parking.ts`. Timestamps (`createdAt`, `updatedAt`) are left out:
    no decision reads them. */
module ParkingTypes {
  import opened Wrappers

  datatype VehicleType = Car | Motorcycle | Truck

  datatype VehicleSize = Small | Medium | Large

  /** `"pending" | "approved" | "rejected"`, shared by vehicles and slot
      requests. */
  datatype ApprovalStatus = Pending | Approved | Rejected

  datatype SlotStatus = Available | Occupied | Reserved | Maintenance

  /** The lower-case string each union member is spelled as in the records. */
  function VehicleTypeCode(t: VehicleType): (r: string)
    ensures ParseVehicleType(r) == Some(t)
  {
    match t
    case Car => "car"
    case Motorcycle => "motorcycle"
    case Truck => "truck"
  }

  function ParseVehicleType(s: string): Option<VehicleType> {
    if s == "car" then Some(Car)
    else if s == "motorcycle" then Some(Motorcycle)
    else if s == "truck" then Some(Truck)
    else None
  }

  function VehicleSizeCode(z: VehicleSize): (r: string)
    ensures ParseVehicleSize(r) == Some(z)
  {
    match z
    case Small => "small"
    case Medium => "medium"
    case Large => "large"
  }

  function ParseVehicleSize(s: string): Option<VehicleSize> {
    if s == "small" then Some(Small)
    else if s == "medium" then Some(Medium)
    else if s == "large" then Some(Large)
    else None
  }

  function ApprovalStatusCode(a: ApprovalStatus): (r: string)
    ensures ParseApprovalStatus(r) == Some(a)
  {
    match a
    case Pending => "pending"
    case Approved => "approved"
    case Rejected => "rejected"
  }

  function ParseApprovalStatus(s: string): Option<ApprovalStatus> {
    if s == "pending" then Some(Pending)
    else if s == "approved" then Some(Approved)
    else if s == "rejected" then Some(Rejected)
    else None
  }

  function SlotStatusCode(st: SlotStatus): (r: string)
    ensures ParseSlotStatus(r) == Some(st)
  {
    match st
    case Available => "available"
    case Occupied => "occupied"
    case Reserved => "reserved"
    case Maintenance => "maintenance"
  }

  function ParseSlotStatus(s: string): Option<SlotStatus> {
    if s == "available" then Some(Available)
    else if s == "occupied" then Some(Occupied)
    else if s == "reserved" then Some(Reserved)
    else if s == "maintenance" then Some(Maintenance)
    else None
  }

  /** `Vehicle`: the optional `attributes.color`/`attributes.model` and the
      optional approval `status`. */
  datatype Vehicle = Vehicle(
    id: string,
    userId: string,
    plateNumber: string,
    vehicleType: VehicleType,
    size: VehicleSize,
    color: Option<string>,
    model: Option<string>,
    status: Option<ApprovalStatus>)

  datatype Assignment = Assignment(userId: string, vehicleId: string, vehiclePlate: string)

  datatype ParkingSlot = ParkingSlot(
    id: string,
    slotNumber: string,
    vehicleType: VehicleType,
    size: VehicleSize,
    location: string,
    status: SlotStatus,
    assignedTo: Option<Assignment>)

  datatype AssignedSlot = AssignedSlot(id: string, slotNumber: string)

  /** `SlotRequest`; its `vehicleType` is a free string in the source. */
  datatype SlotRequest = SlotRequest(
    id: string,
    userId: string,
    userName: Option<string>,
    vehicleId: string,
    vehiclePlate: string,
    vehicleType: string,
    preferredLocation: string,
    startDate: string,
    endDate: string,
    status: ApprovalStatus,
    notes: Option<string>,
    rejectionReason: Option<string>,
    assignedSlot: Option<AssignedSlot>)
}
