// The vehicle exercise: a Vehicle class with a class-wide counter of the vehicles built,
// speed changes, a paint job, the Towable mixin of trucks and the text of a car.

module Vehicles {
  import opened RubyText

  /** `@@number_of_vehicles`: one counter shared by every vehicle, starting at 0. */
  class VehicleCount {
    var numberOfVehicles: nat

    constructor ()
      ensures numberOfVehicles == 0
    {
      numberOfVehicles := 0;
    }
  }

  /** Which class a vehicle was built from: `Vehicle` itself, `MyCar` or `MyTruck`. */
  datatype Kind = PlainVehicle | Car | Truck

  /** `MyCar::NUMBER_OF_DOORS` and `MyTruck::NUMBER_OF_DOORS`. */
  const CAR_DOORS: nat := 4
  const TRUCK_DOORS: nat := 2

  /** The weight limit of `Towable#can_tow?`, excluded itself. */
  const TOW_LIMIT: int := 2000

  /** `Towable#can_tow?`, the mixin `MyTruck` includes. */
  predicate CanTow(pounds: int)
  {
    pounds < TOW_LIMIT
  }

  /** Towing is allowed up to 1999 pounds and refused from 2000 on: anything lighter than
      a load that can be towed can be towed too. */
  lemma TowLimit(lighter: int, heavier: int)
    ensures CanTow(1999) && !CanTow(2000)
    ensures lighter <= heavier && CanTow(heavier) ==> CanTow(lighter)
    ensures !CanTow(lighter) <==> lighter >= 2000
  {
  }

  /** `MyCar#to_s`: "My car is a {color}, {year}, {model}!". */
  function CarText(color: string, year: int, model: string): string
  {
    var head := "My car is a " + color + ", ";
    head + (IntToString(year) + ", " + model + "!")
  }

  lemma Halves(a: string, b: string)
    ensures (a + b)[..|a|] == a && (a + b)[|a|..] == b
  {
  }

  /** The text of a car is "My car is a ", the color, ", ", the year as interpolation
      writes it, ", ", the model and "!"; a year that is not negative reads back with
      `to_i` from where it starts. */
  lemma CarTextParts(color: string, year: int, model: string)
    ensures var s := CarText(color, year, model);
      |s| >= 18 + |color| + |model| &&
      s[..12] == "My car is a " && s[12..12 + |color|] == color &&
      s[12 + |color|..14 + |color|] == ", " &&
      s[14 + |color|..|s| - |model| - 3] == IntToString(year) &&
      s[|s| - |model| - 3..] == ", " + model + "!"
    ensures year >= 0 ==> ParseLeadingNat(CarText(color, year, model)[14 + |color|..]) == year
  {
    var s := CarText(color, year, model);
    var prefix, y, rest := "My car is a ", IntToString(year), ", " + model + "!";
    var head := prefix + color + ", ";
    assert s == head + (y + rest);
    Halves(head, y + rest);
    Halves(y, rest);
    Halves(prefix + color, ", ");
    Halves(prefix, color);
    assert s[..12] == head[..12];
    assert s[12..12 + |color|] == head[12..12 + |color|];
    assert s[12 + |color|..14 + |color|] == head[12 + |color|..];
    assert s[14 + |color|..|s| - |model| - 3] == (y + rest)[..|y|];
    assert s[|s| - |model| - 3..] == (y + rest)[|y|..];
    if year >= 0 {
      assert y + rest == NatToString(year) + rest;
      ParseNatToString(year, rest);
    }
  }

  /** The car the program builds, a white 1997 chevy lumina. */
  lemma LuminaText()
    ensures CarText("white", 1997, "chevy lumina") == "My car is a white, 1997, chevy lumina!"
  {
    Spelled1997();
  }

  lemma Spelled1997()
    ensures IntToString(1997) == "1997"
  {
    assert NatToString(1) == "1";
    assert NatToString(19) == "19";
    assert NatToString(199) == "199";
  }

  class Vehicle {
    const kind: Kind
    var color: string
    var year: int
    var model: string
    var currentSpeed: int

    /** `Vehicle#initialize` (also `MyCar.new` and `MyTruck.new`): at rest, and one more
        vehicle counted. */
    constructor (count: VehicleCount, kind: Kind, year: int, model: string, color: string)
      modifies count
      ensures this.kind == kind && this.year == year && this.model == model && this.color == color
      ensures currentSpeed == 0
      ensures count.numberOfVehicles == old(count.numberOfVehicles) + 1
    {
      this.kind := kind;
      this.year := year;
      this.color := color;
      this.model := model;
      currentSpeed := 0;
      new;
      count.numberOfVehicles := count.numberOfVehicles + 1;
    }

    /** `Vehicle#speed_up`: faster by exactly `number`; nothing else changes. */
    method SpeedUp(number: int)
      modifies this
      ensures currentSpeed == old(currentSpeed) + number
      ensures color == old(color) && year == old(year) && model == old(model)
    {
      currentSpeed := currentSpeed + number;
    }

    /** `Vehicle#brake`: slower by exactly `number`, with no floor at 0; nothing else
        changes. */
    method Brake(number: int)
      modifies this
      ensures currentSpeed == old(currentSpeed) - number
      ensures color == old(color) && year == old(year) && model == old(model)
    {
      currentSpeed := currentSpeed - number;
    }

    /** `Vehicle#shut_down`: at rest whatever the speed was; nothing else changes. */
    method ShutDown()
      modifies this
      ensures currentSpeed == 0
      ensures color == old(color) && year == old(year) && model == old(model)
    {
      currentSpeed := 0;
    }

    /** `Vehicle#spray_paint`: the color and nothing else. */
    method SprayPaint(color: string)
      modifies this
      ensures this.color == color
      ensures currentSpeed == old(currentSpeed) && year == old(year) && model == old(model)
    {
      this.color := color;
    }

    /** `MyCar#to_s`, which only cars have: "My car is a ", the color, ", ", the year,
        ", ", the model and "!", with a year that is not negative reading back. */
    function ToS(): (s: string)
      requires kind == Car
      reads this
      ensures |s| >= 18 + |color| + |model|
      ensures s[..12] == "My car is a " && s[12..12 + |color|] == color
      ensures s[12 + |color|..14 + |color|] == ", "
      ensures s[14 + |color|..|s| - |model| - 3] == IntToString(year)
      ensures s[|s| - |model| - 3..] == ", " + model + "!"
      ensures year >= 0 ==> ParseLeadingNat(s[14 + |color|..]) == year
    {
      CarTextParts(color, year, model);
      CarText(color, year, model)
    }
  }
}
