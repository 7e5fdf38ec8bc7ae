/** `generateTimeSlots`: the delivery times offered in the breakfast window. */
module Slots {
  import opened Decimal

  /** The slots one hour contributes: on the hour, and half past unless it is the last hour. */
  function HourSlots(hour: nat): seq<string> {
    [NatToString(hour) + ":00"] + (if hour < 10 then [NatToString(hour) + ":30"] else [])
  }

  /** The slots pushed by the loop before it reaches `hour`. */
  function SlotsBefore(hour: nat): seq<string>
    requires 8 <= hour
    decreases hour
  {
    if hour == 8 then [] else SlotsBefore(hour - 1) + HourSlots(hour - 1)
  }

  /** The loop over the hours 8 to 10: every half hour from 8:00 up to 10:00, with no 10:30. */
  method GenerateTimeSlots() returns (slots: seq<string>)
    ensures slots == ["8:00", "8:30", "9:00", "9:30", "10:00"]
    ensures forall i, j | 0 <= i < j < |slots| :: slots[i] != slots[j]
  {
    slots := [];
    var hour := 8;
    while hour <= 10
      invariant 8 <= hour <= 11
      invariant slots == SlotsBefore(hour)
      decreases 11 - hour
    {
      slots := slots + [NatToString(hour) + ":00"];
      if hour < 10 {
        slots := slots + [NatToString(hour) + ":30"];
      }
      hour := hour + 1;
    }
    assert hour == 11;
    assert NatToString(8) == "8" && NatToString(9) == "9" && NatToString(10) == "10";
    assert HourSlots(8) == ["8:00", "8:30"] by {
      assert "8" + ":00" == "8:00" && "8" + ":30" == "8:30";
    }
    assert HourSlots(9) == ["9:00", "9:30"] by {
      assert "9" + ":00" == "9:00" && "9" + ":30" == "9:30";
    }
    assert HourSlots(10) == ["10:00"] by {
      assert "10" + ":00" == "10:00";
    }
    assert SlotsBefore(11) == HourSlots(8) + HourSlots(9) + HourSlots(10);
  }
}
