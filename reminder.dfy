/**
 * The rent reminder for one run: the configuration, the day it runs
 * (`today`), the due date that follows from it, and the memo of the rent
 * splits in force on the due date.
 */
module Reminder {
  import opened Wrappers
  import opened Calendar
  import opened Strings
  import opened Configuration
  import opened Components
  import opened Schedule
  import opened Statement

  class RentReminder {
    const config: Config
    const today: Date
    const dueDate: Date

    /** `_due_date_rents`: unset until the first lookup of the due date's splits succeeds. */
    var dueDateRentsMemo: Option<Splits>

    ghost predicate Valid()
      reads this
    {
      && ValidDate(today)
      && FirstNextMonth(today) == Some(dueDate)
      && (dueDateRentsMemo.Some? ==> ApplicableSplits(config.rent, dueDate) == Ok(dueDateRentsMemo.value))
    }

    constructor (config: Config, today: Date)
      requires ValidDate(today) && FirstNextMonth(today).Some?
      ensures Valid()
      ensures this.config == config && this.today == today
      ensures dueDate == FirstNextMonth(today).value && dueDateRentsMemo == None
    {
      this.config := config;
      this.today := today;
      this.dueDate := FirstNextMonth(today).value;
      this.dueDateRentsMemo := None;
    }

    /**
     * `RentReminder(...)`: fails where the due date would fall after
     * December of `MaxYear`, as `date(...)` raises there.
     */
    static method Create(config: Config, today: Date) returns (r: Result<RentReminder, Error>)
      requires ValidDate(today)
      ensures r.Err? <==> today.year == MaxYear && today.month == 12
      ensures r.Err? ==> r.error == DateOutOfRange(today.year + 1)
      ensures r.Ok? ==> && fresh(r.value) && r.value.Valid()
                        && r.value.config == config && r.value.today == today
                        && r.value.dueDate == FirstNextMonth(today).value
                        && r.value.dueDateRentsMemo == None
    {
      if FirstNextMonth(today).None? {
        return Err(DateOutOfRange(today.year + 1));
      }
      var reminder := new RentReminder(config, today);
      return Ok(reminder);
    }

    /** The splits in force on `rentDate`, searched for from the newest schedule entry back. */
    method RentsAsOf(rentDate: Date) returns (r: Result<Splits, Error>)
      ensures r == ApplicableSplits(config.rent, rentDate)
    {
      var schedule := config.rent;
      var i := |schedule|;
      assert schedule[..i] == schedule;
      while i > 0
        invariant 0 <= i <= |schedule|
        invariant ApplicableSplits(schedule, rentDate) == ApplicableSplits(schedule[..i], rentDate)
      {
        var entry := schedule[i - 1];
        assert schedule[..i][..i - 1] == schedule[..i - 1];
        if Applies(entry, rentDate) {
          return Ok(entry.splits);
        }
        i := i - 1;
      }
      return Err(RentNotFound(rentDate));
    }

    /**
     * The memo after a due-date lookup that started from `before`: filled
     * when the lookup succeeds, untouched when it fails.
     */
    ghost function MemoAfterLookup(before: Option<Splits>): Option<Splits> {
      match ApplicableSplits(config.rent, dueDate)
      case Ok(splits) => Some(splits)
      case Err(_) => before
    }

    /** The splits in force on the due date, looked up once and then served from the memo. */
    method DueDateRents() returns (r: Result<Splits, Error>)
      requires Valid()
      modifies this
      ensures Valid()
      ensures r == ApplicableSplits(config.rent, dueDate)
      ensures old(dueDateRentsMemo).Some? ==> dueDateRentsMemo == old(dueDateRentsMemo) && r == Ok(old(dueDateRentsMemo).value)
      ensures dueDateRentsMemo == MemoAfterLookup(old(dueDateRentsMemo))
    {
      if dueDateRentsMemo.None? {
        var splits := RentsAsOf(dueDate);
        if splits.Err? {
          return Err(splits.error);
        }
        dueDateRentsMemo := Some(splits.value);
      }
      return Ok(dueDateRentsMemo.value);
    }

    /** What `name` owes in rent on the due date. */
    ghost function RentDue(name: string): Result<real, Error> {
      match ApplicableSplits(config.rent, dueDate)
      case Err(e) => Err(e)
      case Ok(splits) => if name in splits then Ok(splits[name]) else Err(NoRentFor(name))
    }

    method RentFor(name: string) returns (r: Result<real, Error>)
      requires Valid()
      modifies this
      ensures Valid()
      ensures r == RentDue(name)
      ensures dueDateRentsMemo == MemoAfterLookup(old(dueDateRentsMemo))
    {
      var splits := DueDateRents();
      if splits.Err? {
        return Err(splits.error);
      }
      if name !in splits.value {
        return Err(NoRentFor(name));
      }
      return Ok(splits.value[name]);
    }

    /**
     * The utility amounts of the month of `today` (not of the due date). A
     * miss formats `today` with `strftime` for its message, which fails first
     * for a year before `StrftimeMinYear`.
     */
    function UtilityInfo(): (r: Result<Amounts, Error>)
      ensures r.Ok? <==> today.year in config.utilities && today.month in config.utilities[today.year]
      ensures r.Ok? ==> r.value == config.utilities[today.year][today.month]
      ensures r.Err? && today.year < StrftimeMinYear ==> r.error == YearBefore1900(today.year)
      ensures r.Err? && today.year >= StrftimeMinYear ==> r.error == NoUtilityInfo(today.year, today.month)
    {
      if today.year in config.utilities && today.month in config.utilities[today.year] then
        Ok(config.utilities[today.year][today.month])
      else if today.year < StrftimeMinYear then
        Err(YearBefore1900(today.year))
      else
        Err(NoUtilityInfo(today.year, today.month))
    }

    /** Everyone in `people` pays, and so does one payer who is not listed. */
    function NumPayers(): (n: int)
      ensures n >= 1 && n == |config.people| + 1
    {
      |config.people| + 1
    }

    /** The statement lines of `name`: the rent first, so its errors come before a missing utility month. */
    ghost function PartsOf(name: string): Result<seq<RentComponent>, Error> {
      match RentDue(name)
      case Err(e) => Err(e)
      case Ok(rent) =>
        match UtilityInfo()
        case Err(e) => Err(e)
        case Ok(amounts) => Ok(Itemize(rent, amounts, NumPayers()))
    }

    method PartsFor(name: string) returns (r: Result<seq<RentComponent>, Error>)
      requires Valid()
      modifies this
      ensures Valid()
      ensures r == PartsOf(name)
      ensures r.Ok? ==> AllDivisible(r.value)
      ensures dueDateRentsMemo == MemoAfterLookup(old(dueDateRentsMemo))
    {
      var rent := RentFor(name);
      if rent.Err? {
        return Err(rent.error);
      }
      ghost var memo := dueDateRentsMemo;
      var parts: seq<RentComponent> := [];
      var first := NewComponent("Rent", rent.value, 1);
      parts := parts + [first.value];
      var info := UtilityInfo();
      if info.Err? {
        return Err(info.error);
      }
      var amounts := info.value;
      var keys := SortedKeys(amounts.Keys);
      var i := 0;
      while i < |keys|
        invariant 0 <= i <= |keys| && Valid() && dueDateRentsMemo == memo
        invariant parts == [RentComponent("Rent", rent.value, 1)] + UtilityParts(keys[..i], amounts, NumPayers())
      {
        var k := keys[i];
        var line := NewComponent(k, amounts[k], NumPayers());
        UtilityPartsExtend([RentComponent("Rent", rent.value, 1)], keys, i, amounts, NumPayers());
        parts := parts + [line.value];
        i := i + 1;
      }
      assert keys[..i] == keys;
      PartsOfFound(name, rent.value, amounts);
      return Ok(parts);
    }

    /** Once the rent and the utility month are found, the statement lines are their itemisation. */
    lemma PartsOfFound(name: string, rent: real, amounts: Amounts)
      requires RentDue(name) == Ok(rent) && UtilityInfo() == Ok(amounts)
      ensures PartsOf(name) == Ok(Itemize(rent, amounts, NumPayers()))
      ensures AllDivisible(Itemize(rent, amounts, NumPayers()))
    {
      ItemizedTotal(rent, amounts, NumPayers());
    }

    /** The statement's lines add up to the rent plus the evenly divided utility bill. */
    lemma PartsOfTotal(name: string)
      requires PartsOf(name).Ok?
      ensures RentDue(name).Ok? && UtilityInfo().Ok?
      ensures AllDivisible(PartsOf(name).value)
      ensures SumShares(PartsOf(name).value)
              == RentDue(name).value + UtilityTotal(UtilityInfo().value) / NumPayers() as real
    {
      ItemizedTotal(RentDue(name).value, UtilityInfo().value, NumPayers());
    }

    /** The sum of the shares of `name`'s statement lines. */
    method TotalFor(name: string) returns (r: Result<real, Error>)
      requires Valid()
      modifies this
      ensures Valid()
      ensures PartsOf(name).Err? ==> r == Err(PartsOf(name).error)
      ensures dueDateRentsMemo == MemoAfterLookup(old(dueDateRentsMemo))
      ensures PartsOf(name).Ok? ==> AllDivisible(PartsOf(name).value) && r == Ok(SumShares(PartsOf(name).value))
      ensures r.Ok? ==> r.value == RentDue(name).value + UtilityTotal(UtilityInfo().value) / NumPayers() as real
    {
      var parts := PartsFor(name);
      if parts.Err? {
        return Err(parts.error);
      }
      PartsOfTotal(name);
      return Ok(SumShares(parts.value));
    }

    /**
     * The reminder mailed to `name`: recipients and headers in their fixed
     * order, the statement lines, and the total rounded to cents. The subject
     * names the due month through `strftime`, which fails for a due date
     * before `StrftimeMinYear` once the statement is built.
     */
    method EmailFor(name: string) returns (r: Result<Envelope, Error>)
      requires Valid()
      modifies this
      ensures Valid()
      ensures name !in config.people ==> r == Err(UnknownPerson(name)) && dueDateRentsMemo == old(dueDateRentsMemo)
      ensures name in config.people ==> dueDateRentsMemo == MemoAfterLookup(old(dueDateRentsMemo))
      ensures name in config.people ==> (r.Err? <==> PartsOf(name).Err? || dueDate.year < StrftimeMinYear)
      ensures name in config.people && PartsOf(name).Err? ==> r == Err(PartsOf(name).error)
      ensures name in config.people && PartsOf(name).Ok? && dueDate.year < StrftimeMinYear
              ==> r == Err(YearBefore1900(dueDate.year))
      ensures r.Ok? ==>
        && name in config.people
        && dueDate.year >= StrftimeMinYear
        && var person := config.people[name];
        && r.value.sender == config.fromAddress
        && r.value.recipients == [person.email] + (if HasCc(person) then [person.cc.value] else []) + [config.bcc]
        && r.value.headers == [From(config.fromAddress), To(person.email)]
                              + (if HasCc(person) then [Cc(person.cc.value)] else [])
                              + [Subject(dueDate.month, r.value.total)]
        && PartsOf(name).Ok? && r.value.parts == PartsOf(name).value
        && AllDivisible(r.value.parts)
        && r.value.total == Round2(SumShares(r.value.parts))
        && r.value.total == Round2(RentDue(name).value + UtilityTotal(UtilityInfo().value) / NumPayers() as real)
    {
      if name !in config.people {
        return Err(UnknownPerson(name));
      }
      var person := config.people[name];
      var fromAddress := config.fromAddress;
      var toAddress := person.email;
      var recipients := [toAddress];
      var headers := [From(fromAddress), To(toAddress)];
      if HasCc(person) {
        headers := headers + [Cc(person.cc.value)];
        recipients := recipients + [person.cc.value];
      }
      recipients := recipients + [config.bcc];
      assert recipients == [person.email] + (if HasCc(person) then [person.cc.value] else []) + [config.bcc];
      assert headers == [From(fromAddress), To(toAddress)] + (if HasCc(person) then [Cc(person.cc.value)] else []);

      var parts := PartsFor(name);
      if parts.Err? {
        return Err(parts.error);
      }
      PartsOfTotal(name);
      var total := Round2(SumShares(parts.value));
      var again := TotalFor(name);
      // `email_for`'s double check of the total can never fail
      assert again.Ok? && total == Round2(again.value);

      if dueDate.year < StrftimeMinYear {
        return Err(YearBefore1900(dueDate.year));
      }

      headers := headers + [Subject(dueDate.month, total)];
      return Ok(Envelope(fromAddress, recipients, headers, parts.value, total));
    }
  }
}
